/** The `Keys` flags: sixteen keys, key i held when bit i of the 16-bit
    key state is set, and how that state is latched into memory. */
module Keys {
  import opened MemoryImage
  import opened Arithmetic

  datatype Key =
    | Key0 | Key1 | Key2 | Key3 | Key4 | Key5 | Key6 | Key7
    | Key8 | Key9 | A | B | C | D | E | F

  /** The bit position of a key: 0 to 9 for the digits, 0xA to 0xF for A to F. */
  function Index(k: Key): (i: nat)
    ensures i < 16
  {
    match k
    case Key0 => 0x0 case Key1 => 0x1 case Key2 => 0x2 case Key3 => 0x3
    case Key4 => 0x4 case Key5 => 0x5 case Key6 => 0x6 case Key7 => 0x7
    case Key8 => 0x8 case Key9 => 0x9 case A => 0xA case B => 0xB
    case C => 0xC case D => 0xD case E => 0xE case F => 0xF
  }

  /** The enum's value: `1 << i` for the key at position i. */
  function Flag(k: Key): (f: ushort)
    ensures f == Pow2(Index(k))
  {
    Pow2Values();
    match k
    case Key0 => 0x0001 case Key1 => 0x0002 case Key2 => 0x0004 case Key3 => 0x0008
    case Key4 => 0x0010 case Key5 => 0x0020 case Key6 => 0x0040 case Key7 => 0x0080
    case Key8 => 0x0100 case Key9 => 0x0200 case A => 0x0400 case B => 0x0800
    case C => 0x1000 case D => 0x2000 case E => 0x4000 case F => 0x8000
  }

  /** Bit `i` of `x`. */
  predicate Bit(x: nat, i: nat) {
    x / Pow2(i) % 2 == 1
  }

  /** A key is held when its flag's bit is set in the key state. */
  predicate Held(keys: ushort, k: Key) {
    Bit(keys, Index(k))
  }

  /** The literal values of the powers of two that the flags use. */
  lemma Pow2Values()
    ensures Pow2(0x0) == 0x0001 && Pow2(0x1) == 0x0002 && Pow2(0x2) == 0x0004 && Pow2(0x3) == 0x0008
    ensures Pow2(0x4) == 0x0010 && Pow2(0x5) == 0x0020 && Pow2(0x6) == 0x0040 && Pow2(0x7) == 0x0080
    ensures Pow2(0x8) == 0x0100 && Pow2(0x9) == 0x0200 && Pow2(0xA) == 0x0400 && Pow2(0xB) == 0x0800
    ensures Pow2(0xC) == 0x1000 && Pow2(0xD) == 0x2000 && Pow2(0xE) == 0x4000 && Pow2(0xF) == 0x8000
  {
  }

  /** Each flag sets exactly its own key's bit: the flags are distinct
      single bits, so a key state made of flags says exactly which keys are held. */
  lemma FlagHoldsOnlyItsKey(k: Key, k': Key)
    ensures Held(Flag(k), k') <==> k == k'
  {
    PowBit(Index(k), Index(k'));
    IndexInjective(k, k');
  }

  lemma IndexInjective(k: Key, k': Key)
    ensures Index(k) == Index(k') <==> k == k'
  {
    assert KeyAt(Index(k)) == k && KeyAt(Index(k')) == k' by {
      KeyAtIndex(k);
      KeyAtIndex(k');
    }
  }

  function KeyAt(i: nat): Key
    requires i < 16
  {
    [Key0, Key1, Key2, Key3, Key4, Key5, Key6, Key7, Key8, Key9, A, B, C, D, E, F][i]
  }

  lemma KeyAtIndex(k: Key)
    ensures KeyAt(Index(k)) == k
  {
  }

  /** Bit b of 2^a is set exactly when a == b. */
  lemma PowBit(a: nat, b: nat)
    ensures Bit(Pow2(a), b) <==> a == b
  {
    if a >= b {
      PowBitBelow(a, b);
    } else {
      PowBitAbove(a, b);
    }
  }

  /** At or below the set bit: 2^a / 2^b is 2^(a-b), odd only when a == b. */
  lemma PowBitBelow(a: nat, b: nat)
    requires a >= b
    ensures Bit(Pow2(a), b) <==> a == b
  {
    PowSplit(b, a - b);
    DivUnique(Pow2(a), Pow2(b), Pow2(a - b), 0);
    if a > b {
      assert Pow2(a - b) == 2 * Pow2(a - b - 1);
      ModEvenAdd(Pow2(a - b - 1), 0);
    }
  }

  /** Above the set bit: 2^a / 2^b is 0. */
  lemma PowBitAbove(a: nat, b: nat)
    requires a < b
    ensures !Bit(Pow2(a), b)
  {
    PowSplit(a, b - a);
    assert Pow2(b - a) >= 2 by { assert Pow2(b - a) == 2 * Pow2(b - a - 1); }
    MulAtLeastTwice(Pow2(a), Pow2(b - a));
    DivUnique(Pow2(a), Pow2(b), 0, Pow2(a));
  }

  /** The byte the latch writes to address 0, `(byte)((ushort)keys >> 8)`:
      the key state lies in the 256-wide block the high byte numbers. */
  function HighByte(keys: ushort): (b: byte)
    ensures b * 0x100 <= keys < b * 0x100 + 0x100
  {
    keys / 0x100
  }

  /** The byte the latch writes to address 1, `(byte)keys`: the key state
      and its low byte differ by a multiple of 256. */
  function LowByte(keys: ushort): (b: byte)
    ensures (keys - b) % 0x100 == 0
  {
    keys % 0x100
  }

  /** The latch is big-endian and loses nothing: the two bytes put back
      together give the key state. */
  lemma LatchBytesBigEndian(keys: ushort)
    ensures HighByte(keys) * 0x100 + LowByte(keys) == keys
  {
  }

  /** Keys 0 to 7 land in the byte at address 1, bit i; keys 8 to F land in
      the byte at address 0, bit i - 8. */
  lemma HeldInLatchedByte(keys: ushort, k: Key)
    ensures Index(k) < 8 ==> (Held(keys, k) <==> Bit(LowByte(keys), Index(k)))
    ensures Index(k) >= 8 ==> (Held(keys, k) <==> Bit(HighByte(keys), Index(k) - 8))
  {
    if Index(k) < 8 {
      LowBits(keys, Index(k));
    } else {
      HighBits(keys, Index(k) - 8);
    }
  }

  /** The low byte keeps bits 0 to 7. */
  lemma LowBits(x: nat, i: nat)
    requires i < 8
    ensures Bit(x % 0x100, i) <==> Bit(x, i)
  {
    var p, e := Pow2(i), Pow2(7 - i);
    // 2^8 = 2^i * 2^(8-i), and 2^(8-i) = 2 * 2^(7-i) is even
    PowSplit(i, 8 - i);
    Pow2Eight();
    assert Pow2(8 - i) == 2 * e;
    var h, l := x / 0x100, x % 0x100;
    MulNonneg(e, h);
    var k: nat := e * h;
    MulAssoc(p, 2 * e, h);
    MulAssoc(2, e, h);
    assert x == p * (2 * k) + l;
    DivAddMultiple(l, p, 2 * k);
    ModEvenAdd(k, l / p);
  }

  /** The high byte holds bits 8 to 15, shifted down by 8. */
  lemma HighBits(x: nat, j: nat)
    ensures Bit(x / 0x100, j) <==> Bit(x, j + 8)
  {
    PowSplit(8, j);
    Pow2Eight();
    DivDiv(x, 0x100, Pow2(j));
  }
}
