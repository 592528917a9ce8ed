/** The machine's byte-addressed memory: its size, the byte types the
    emulator uses, and the big-endian 24-bit field read that every
    address in the machine comes from. */
module MemoryImage {
  import Arithmetic


  /** C#'s `byte`, `sbyte` and `ushort`. */
  type byte = x: int | 0 <= x < 0x100
  type sbyte = x: int | -0x80 <= x < 0x80
  type ushort = x: int | 0 <= x < 0x1_0000

  /** Addresses are 24 bits wide. */
  const AddressSpace: nat := 0x100_0000

  /** 16 MiB plus an 8-byte margin, so that the three-byte reads at the
      top of the 24-bit space (the last instruction field starts at
      pc + 6 <= 0xFF_FFFF + 6) stay inside the array. */
  const MemorySize: nat := 16 * 1024 * 1024 + 8

  /** `Get3BytesValue`: the big-endian 24-bit value stored at `address`.
      The source writes `(m[a] << 16) | (m[a+1] << 8) | m[a+2]`; the three
      shifted bytes occupy disjoint bit ranges, so the `|` is an addition. */
  function Read24(m: seq<byte>, address: nat): (v: nat)
    requires address + 2 < |m|
    ensures v < AddressSpace
  {
    (m[address] as int) * 0x1_0000 + (m[address + 1] as int) * 0x100 + m[address + 2]
  }

  /** The value read is big-endian: its high, middle and low bytes are the
      bytes at `address`, `address + 1` and `address + 2`. */
  lemma Read24Bytes(m: seq<byte>, address: nat)
    requires address + 2 < |m|
    ensures Read24(m, address) / 0x1_0000 == m[address]
    ensures Read24(m, address) / 0x100 % 0x100 == m[address + 1]
    ensures Read24(m, address) % 0x100 == m[address + 2]
  {
    var hi, mid, lo := m[address] as int, m[address + 1] as int, m[address + 2] as int;
    var v := Read24(m, address);
    assert v == 0x1_0000 * hi + (0x100 * mid + lo);
    Arithmetic.DivUnique(v, 0x1_0000, hi, 0x100 * mid + lo);
    assert v == 0x100 * (0x100 * hi + mid) + lo;
    Arithmetic.DivUnique(v, 0x100, 0x100 * hi + mid, lo);
    Arithmetic.DivUnique(0x100 * hi + mid, 0x100, hi, mid);
  }

  /** The three bytes that store `v` big-endian; the inverse of `Read24`. */
  function Bytes24(v: nat): (b: seq<byte>)
    requires v < AddressSpace
    ensures |b| == 3
  {
    [v / 0x1_0000, v / 0x100 % 0x100, v % 0x100]
  }

  /** Writing a 24-bit value and reading it back gives the value again,
      and only the three bytes at `address` change. */
  lemma Read24Write(m: seq<byte>, address: nat, v: nat)
    requires address + 2 < |m| && v < AddressSpace
    ensures var m' := m[..address] + Bytes24(v) + m[address + 3..];
      && |m'| == |m|
      && Read24(m', address) == v
      && (forall x :: 0 <= x < |m| && !(address <= x < address + 3) ==> m'[x] == m[x])
  {
    var m' := m[..address] + Bytes24(v) + m[address + 3..];
    assert m'[address] == v / 0x1_0000;
    assert m'[address + 1] == v / 0x100 % 0x100;
    assert m'[address + 2] == v % 0x100;
  }

  /** The cast `(sbyte)b`: the byte's bits read as two's complement. */
  function Signed(b: byte): (s: sbyte)
    ensures (s + 0x100) % 0x100 == b
    ensures s >= 0 <==> b < 0x80
  {
    if b < 0x80 then b else b - 0x100
  }

  /** The cast is a bijection between `byte` and `sbyte`. */
  lemma SignedInjective(a: byte, b: byte)
    requires Signed(a) == Signed(b)
    ensures a == b
  {
  }

  /** A memory image of `MemorySize` zero bytes: what `new byte[...]` and
      `Array.Clear` leave. */
  function Zeroes(n: nat): (z: seq<byte>)
    ensures |z| == n && forall x :: 0 <= x < n ==> z[x] == 0
  {
    seq(n, _ => 0)
  }
}
