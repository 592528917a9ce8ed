/** The fixed 256-entry palette: a 6x6x6 colour cube in entries 0 to 215,
    black in entries 216 to 255. */
module Palette {
  import opened MemoryImage
  import Arithmetic

  datatype Pixel = Pixel(red: byte, green: byte, blue: byte)

  /** What a zero-initialised C# `Pixel` struct holds. */
  const Black := Pixel(0, 0, 0)

  /** Number of entries the static constructor fills. */
  const CubeSize: nat := 216

  /** Entry `i` of the table as the static constructor leaves it: the
      cube colour for i < 216, the struct default past the cube. It is black
      exactly at entry 0 and past the cube; every other cube entry has a
      non-zero channel. */
  function PaletteEntry(i: byte): (p: Pixel)
    ensures p == Black <==> (i == 0 || i >= CubeSize)
  {
    if i < CubeSize then
      CubeDigits(i);
      Pixel((i / 36) * 0x33, (i / 6 % 6) * 0x33, (i % 6) * 0x33)
    else Black
  }

  /** The cube index a colour stands for: its channel levels 0 to 5 as the
      digits of a base-6 number, red most significant. */
  function CubeIndex(p: Pixel): nat
  {
    36 * (p.red / 0x33) + 6 * (p.green / 0x33) + p.blue / 0x33
  }

  /** Reading a cube entry's channel levels back as base-6 digits gives its
      index: the cube is laid out red-major, then green, then blue. */
  lemma CubeIndexOfEntry(i: byte)
    requires i < CubeSize
    ensures CubeIndex(PaletteEntry(i)) == i
  {
    Arithmetic.DivUnique((i / 36) * 0x33, 0x33, i / 36, 0);
    Arithmetic.DivUnique((i / 6 % 6) * 0x33, 0x33, i / 6 % 6, 0);
    Arithmetic.DivUnique((i % 6) * 0x33, 0x33, i % 6, 0);
    CubeDigits(i);
  }

  /** The static `palette` array: 256 entries, entry i being the one the
      static constructor leaves at index i. */
  function PaletteTable(): (t: seq<Pixel>)
    ensures |t| == 256
    ensures forall i :: 0 <= i < 256 ==> t[i] == PaletteEntry(i)
  {
    seq(256, i requires 0 <= i < 256 => PaletteEntry(i))
  }

  /** Entry 36r + 6g + b of the cube is the colour with channel levels r, g
      and b, each scaled to 0, 0x33, ..., 0xFF. */
  lemma CubeEntry(r: nat, g: nat, b: nat)
    requires r < 6 && g < 6 && b < 6
    ensures 36 * r + 6 * g + b < CubeSize
    ensures PaletteEntry(36 * r + 6 * g + b) == Pixel(r * 0x33, g * 0x33, b * 0x33)
  {
    var i := 36 * r + 6 * g + b;
    assert i / 36 == r;
    assert i / 6 == 6 * r + g;
    assert i / 6 % 6 == g;
    assert i % 6 == b;
  }

  /** Every channel of every entry is one of the six cube levels. */
  lemma ChannelsAreLevels(i: byte)
    ensures PaletteEntry(i).red % 0x33 == 0 && PaletteEntry(i).green % 0x33 == 0
    ensures PaletteEntry(i).blue % 0x33 == 0
  {
    if i < CubeSize {
      Arithmetic.MultipleMod(i / 36, 0x33);
      Arithmetic.MultipleMod(i / 6 % 6, 0x33);
      Arithmetic.MultipleMod(i % 6, 0x33);
    }
  }

  /** The cube holds 216 distinct colours: no two cube entries coincide. */
  lemma CubeInjective(i: byte, j: byte)
    requires i < CubeSize && j < CubeSize
    requires PaletteEntry(i) == PaletteEntry(j)
    ensures i == j
  {
    CubeIndexOfEntry(i);
    CubeIndexOfEntry(j);
  }

  /** An index is its three base-6 digits put back together. */
  lemma CubeDigits(i: byte)
    ensures i == 36 * (i / 36) + 6 * (i / 6 % 6) + i % 6
  {
    assert i == 6 * (i / 6) + i % 6;
    assert i / 6 == 6 * (i / 6 / 6) + i / 6 % 6;
    assert i / 6 / 6 == i / 36;
  }

  /** The static constructor: a 256-entry array, zero-initialised as a C#
      array of structs is, whose first 216 entries the loop fills in. */
  method BuildPalette() returns (palette: array<Pixel>)
    ensures fresh(palette) && palette[..] == PaletteTable()
  {
    palette := new Pixel[256](_ => Black);
    for i := 0 to CubeSize
      invariant forall j :: 0 <= j < i ==> palette[j] == PaletteEntry(j)
      invariant forall j :: i <= j < 256 ==> palette[j] == Black
    {
      var r := i / 36;
      var g := i / 6 % 6;
      var b := i % 6;
      palette[i] := Pixel(r * 0x33, g * 0x33, b * 0x33);
    }
    assert palette[..] == PaletteTable();
  }
}
