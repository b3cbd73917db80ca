/** Byte memory of a 32-bit machine, little-endian words, and near jumps. */
module Memory {
  import opened Words

  const SPACE := 0x1_0000_0000

  type Address = a: int | 0 <= a < SPACE

  /** The whole address space. */
  predicate IsMemory(m: Bytes) {
    |m| == SPACE
  }

  /** Pointer and displacement arithmetic is modulo 2^32. */
  function Wrap(x: int): Address {
    x % SPACE
  }

  function Word32(b: Bytes): Address
    requires |b| == 4
  {
    b[0] as int + 0x100 * b[1] as int + 0x1_0000 * b[2] as int + 0x100_0000 * b[3] as int
  }

  function Bytes32(v: Address): (b: Bytes)
    ensures |b| == 4 && Word32(b) == v
  {
    BytesAddUp(v);
    [v % 0x100, v / 0x100 % 0x100, v / 0x1_0000 % 0x100, v / 0x100_0000]
  }

  lemma BytesAddUp(v: Address)
    ensures v / 0x100_0000 < 0x100
    ensures v % 0x100 + 0x100 * (v / 0x100 % 0x100) + 0x1_0000 * (v / 0x1_0000 % 0x100) + 0x100_0000 * (v / 0x100_0000) == v
  {
    assert v / 0x1_0000 == v / 0x100 / 0x100;
    assert v / 0x100_0000 == v / 0x1_0000 / 0x100;
  }

  function Signed8(b: Byte): int {
    if b < 0x80 then b else b - 0x100
  }

  function Write(m: Bytes, a: nat, b: Bytes): (r: Bytes)
    requires a + |b| <= |m|
    ensures |r| == |m| && r[a..a + |b|] == b
    ensures forall i :: 0 <= i < a || a + |b| <= i < |m| ==> r[i] == m[i]
  {
    m[..a] + b + m[a + |b|..]
  }

  /** A write leaves alone every stretch of memory it does not overlap. */
  lemma WriteFrame(m: Bytes, a: nat, b: Bytes, lo: nat, hi: nat)
    requires a + |b| <= |m| && lo <= hi <= |m| && (hi <= a || a + |b| <= lo)
    ensures Write(m, a, b)[lo..hi] == m[lo..hi]
  {
  }

  /** set_jump: the five bytes of a near jump placed at `from`. */
  function Jump(from: int, to: int): (b: Bytes)
    ensures |b| == 5
  {
    [0xE9] + Bytes32(Wrap(to - from - 5))
  }

  /** JMP SHORT $-5, as a little-endian 16-bit word 0xF9EB. */
  const SHORT_BACK: Bytes := [0xEB, 0xF9]

  /** Where the unconditional jump at address a goes; None if there is none. */
  function JumpTarget(m: Bytes, a: nat): Option<Address>
    requires a + 5 <= |m|
  {
    if m[a] == 0xE9 then Some(Wrap(a + 5 + Word32(m[a + 1..a + 5])))
    else if m[a] == 0xEB then Some(Wrap(a + 2 + Signed8(m[a + 1])))
    else None
  }

  lemma JumpGoes(m: Bytes, from: nat, to: Address)
    requires from + 5 <= |m| && m[from..from + 5] == Jump(from, to)
    ensures JumpTarget(m, from) == Some(to)
  {
    assert m[from] == m[from..from + 5][0];
    assert m[from + 1..from + 5] == m[from..from + 5][1..];
    WrapRound(from + 5, to);
  }

  lemma WrapRound(base: int, to: Address)
    ensures Wrap(base + Wrap(to - base)) == to
  {
    WrapAdds(base, to - base);
  }

  lemma WrapAdds(x: int, y: int)
    ensures Wrap(x + Wrap(y)) == Wrap(x + y)
  {
    assert Wrap(y) == y - SPACE * (y / SPACE);
    WrapShift(x + y, -(y / SPACE));
  }

  lemma WrapShift(x: int, k: int)
    ensures Wrap(x + SPACE * k) == Wrap(x)
  {
    assert (x + SPACE * k) / SPACE == x / SPACE + k;
  }
}
