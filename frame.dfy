/** What a frame shows and plays: the video page seen through the palette
    and the audio page read as signed samples, both located by bytes 5 to 7
    of memory after the instructions have run. */
module FrameExtractor {
  import opened MemoryImage
  import opened Palette

  const PixelCount: nat := 256 * 256
  /** Three bytes (red, green, blue) per pixel, row-major, no padding. */
  const ScreenBytes: nat := 3 * PixelCount
  const SampleCount: nat := 256

  /** `memory[5] << 16`: the video page starts on a 64 KiB boundary whose
      number is the byte at address 5, so all of it lies below 2^24. */
  function VideoBase(m: seq<byte>): (a: nat)
    requires |m| == MemorySize
    ensures a + PixelCount <= AddressSpace
  {
    (m[5] as int) * 0x1_0000
  }

  /** The video page is page number `m[5]` of 64 KiB. */
  lemma VideoBasePage(m: seq<byte>)
    requires |m| == MemorySize
    ensures VideoBase(m) % 0x1_0000 == 0 && VideoBase(m) / 0x1_0000 == m[5]
  {
  }

  /** `(memory[6] << 16) | (memory[7] << 8)`: the audio page starts on a
      256-byte boundary given by bytes 6 and 7, so all of it lies below 2^24. */
  function AudioBase(m: seq<byte>): (a: nat)
    requires |m| == MemorySize
    ensures a + SampleCount <= AddressSpace
  {
    (m[6] as int) * 0x1_0000 + (m[7] as int) * 0x100
  }

  /** The audio page is 256-byte page number `m[6] * 256 + m[7]`: its
      address has `m[6]` as high byte, `m[7]` as middle byte and a zero low byte. */
  lemma AudioBasePage(m: seq<byte>)
    requires |m| == MemorySize
    ensures AudioBase(m) % 0x100 == 0
    ensures AudioBase(m) / 0x1_0000 == m[6] && AudioBase(m) / 0x100 % 0x100 == m[7]
  {
  }

  /** Channel 0, 1 or 2 (red, green, blue) of a pixel. */
  function Channel(p: Pixel, c: nat): byte
    requires c < 3
  {
    if c == 0 then p.red else if c == 1 then p.green else p.blue
  }

  /** The screen bytes a frame produces. */
  function Video(m: seq<byte>): (screen: seq<byte>)
    requires |m| == MemorySize
    ensures |screen| == ScreenBytes
  {
    seq(ScreenBytes, j requires 0 <= j < ScreenBytes =>
      Channel(PaletteEntry(m[VideoBase(m) + j / 3]), j % 3))
  }

  /** Pixel i of the video page (row i / 256, column i % 256) is drawn at
      screen bytes 3i, 3i + 1 and 3i + 2 in the colour its palette entry names. */
  lemma VideoPixel(m: seq<byte>, i: nat)
    requires |m| == MemorySize && i < PixelCount
    ensures var p := PaletteEntry(m[VideoBase(m) + i]);
      && Video(m)[3 * i] == p.red
      && Video(m)[3 * i + 1] == p.green
      && Video(m)[3 * i + 2] == p.blue
  {
    assert (3 * i) / 3 == i && (3 * i + 1) / 3 == i && (3 * i + 2) / 3 == i;
  }

  /** The screen depends on nothing but byte 5 and the 65536 bytes of the
      video page. */
  lemma VideoReadsOnlyItsPage(m: seq<byte>, m': seq<byte>)
    requires |m| == MemorySize && |m'| == MemorySize && m[5] == m'[5]
    requires forall x :: VideoBase(m) <= x < VideoBase(m) + PixelCount ==> m[x] == m'[x]
    ensures Video(m) == Video(m')
  {
    forall j | 0 <= j < ScreenBytes
      ensures Video(m)[j] == Video(m')[j]
    {
      assert m[VideoBase(m) + j / 3] == m'[VideoBase(m') + j / 3];
    }
  }

  /** The samples a frame plays. */
  function Audio(m: seq<byte>): (samples: seq<sbyte>)
    requires |m| == MemorySize
    ensures |samples| == SampleCount
  {
    seq<sbyte>(SampleCount, i requires 0 <= i < SampleCount => Signed(m[AudioBase(m) + i]))
  }

  /** Sample i is the byte at offset i of the audio page read as a signed
      byte: the same bits, so the byte can be recovered from it. */
  lemma AudioSample(m: seq<byte>, i: nat)
    requires |m| == MemorySize && i < SampleCount
    ensures (Audio(m)[i] as int + 0x100) % 0x100 == m[AudioBase(m) + i]
    ensures Audio(m)[i] < 0 <==> m[AudioBase(m) + i] >= 0x80
  {
  }

  /** The samples depend on nothing but bytes 6 and 7 and the 256 bytes of
      the audio page. */
  lemma AudioReadsOnlyItsPage(m: seq<byte>, m': seq<byte>)
    requires |m| == MemorySize && |m'| == MemorySize && m[6] == m'[6] && m[7] == m'[7]
    requires forall x :: AudioBase(m) <= x < AudioBase(m) + SampleCount ==> m[x] == m'[x]
    ensures Audio(m) == Audio(m')
  {
    forall i | 0 <= i < SampleCount
      ensures Audio(m)[i] == Audio(m')[i]
    {
      assert m[AudioBase(m) + i] == m'[AudioBase(m') + i];
    }
  }
}
