/** The `BytePusher` object: its memory, screen and sample buffers, the key
    state, and the two operations on them, `Load` and `Clock`. */
module Machine {
  import opened MemoryImage
  import opened Palette
  import opened InstructionCycle
  import opened FrameExtractor
  import Keys

  /** `Load` fails only when the image does not fit: `Array.Copy` throws
      before copying when asked for more bytes than the memory holds. */
  datatype LoadError = ImageTooLarge
  datatype LoadOutcome = Loaded | Failed(error: LoadError)

  /** The memory `Load` leaves: the image followed by zeroes, or, when the
      image is too large, the all-zero memory that `Array.Clear` left. */
  function LoadedImage(data: seq<byte>): (m: seq<byte>)
    ensures |m| == MemorySize
    ensures |data| <= MemorySize ==> m[..|data|] == data
    ensures forall x :: 0 <= x < MemorySize && (x >= |data| || |data| > MemorySize) ==> m[x] == 0
  {
    if |data| <= MemorySize then data + Zeroes(MemorySize - |data|) else Zeroes(MemorySize)
  }

  /** Every image that fits is loaded verbatim: the first |data| bytes of the
      memory give the image back. */
  lemma LoadedImageRoundTrip(data: seq<byte>, data': seq<byte>)
    requires |data| <= MemorySize && |data'| == |data|
    requires LoadedImage(data) == LoadedImage(data')
    ensures data == data'
  {
    assert LoadedImage(data)[..|data|] == data;
    assert LoadedImage(data')[..|data'|] == data';
  }

  class BytePusher {
    /** `byte[16 * 1024 * 1024 + 8]`. */
    const memory: array<byte>
    /** `Screen`: 256 x 256 pixels, three bytes each. */
    const screen: array<byte>
    /** `AudioSamples`: 256 signed samples. */
    const audioSamples: array<sbyte>
    /** The static palette, shared by every machine. */
    const palette: array<Pixel>
    /** `KeysState`: bit i set while key i is held. */
    var keysState: ushort

    ghost predicate Valid()
      reads palette
    {
      && memory.Length == MemorySize
      && screen.Length == ScreenBytes
      && audioSamples.Length == SampleCount
      && palette[..] == PaletteTable()
      && memory != screen
      && memory as object != audioSamples
    }

    /** A new machine: all-zero memory, screen and samples, no key held. */
    constructor (palette: array<Pixel>)
      requires palette[..] == PaletteTable()
      ensures Valid() && this.palette == palette
      ensures fresh(memory) && fresh(screen) && fresh(audioSamples)
      ensures memory[..] == Zeroes(MemorySize) && keysState == 0
      ensures forall j :: 0 <= j < ScreenBytes ==> screen[j] == 0
      ensures forall i :: 0 <= i < SampleCount ==> audioSamples[i] == 0
    {
      memory := new byte[MemorySize](_ => 0);
      screen := new byte[ScreenBytes](_ => 0);
      audioSamples := new sbyte[SampleCount](_ => 0);
      this.palette := palette;
      keysState := 0;
    }

    /** `Get3BytesValue`: the big-endian 24-bit value at `address`. */
    function Get3BytesValue(address: nat): (v: nat)
      reads memory
      requires address + 2 < memory.Length
      ensures v == Read24(memory[..], address)
    {
      (memory[address] as int) * 0x1_0000 + (memory[address + 1] as int) * 0x100 + memory[address + 2]
    }

    /** `Load`, given the bytes the file holds: clear the memory, then copy
      the image to address 0 unless it is larger than the memory. */
    method Load(data: seq<byte>) returns (outcome: LoadOutcome)
      requires Valid()
      modifies memory
      ensures Valid() && memory[..] == LoadedImage(data)
      ensures outcome == if |data| <= MemorySize then Loaded else Failed(ImageTooLarge)
    {
      forall x | 0 <= x < memory.Length {
        memory[x] := 0;
      }
      if |data| > memory.Length {
        assert memory[..] == LoadedImage(data);
        return Failed(ImageTooLarge);
      }
      forall x | 0 <= x < |data| {
        memory[x] := data[x];
      }
      assert memory[..] == LoadedImage(data);
      return Loaded;
    }

    /** `Clock`: one frame. Latch the keys, run 65536 instructions from the
      pc stored at address 2, then fill the screen from the video page and
      the samples from the audio page of the resulting memory. */
    method Clock()
      requires Valid()
      modifies memory, screen, audioSamples
      ensures memory[..] == Execute(old(memory[..]), keysState)
      ensures screen[..] == Video(memory[..])
      ensures audioSamples[..] == Audio(memory[..])
      ensures Valid()
    {
      RunFrame();
      DrawScreen();
      PlayAudio();
    }

    /** The instruction part of `Clock`: latch the keys, read the start pc
      at address 2, and run the frame's instructions from it. */
    method RunFrame()
      requires memory.Length == MemorySize
      modifies memory
      ensures memory[..] == Execute(old(memory[..]), keysState)
      ensures unchanged(palette)
    {
      LatchKeys();
      var pc := Get3BytesValue(2);
      RunInstructions(pc);
    }

    /** The key latch at the start of `Clock`. */
    method LatchKeys()
      requires memory.Length == MemorySize
      modifies memory
      ensures memory[..] == Latch(old(memory[..]), keysState)
      ensures unchanged(palette)
    {
      memory[0] := Keys.HighByte(keysState);
      memory[1] := Keys.LowByte(keysState);
    }

    /** The 65536-iteration copy-and-jump loop of `Clock`. */
    method RunInstructions(pc0: nat)
      requires memory.Length == MemorySize && pc0 < AddressSpace
      modifies memory
      ensures memory[..] == Run(Cpu(old(memory[..]), pc0), InstructionsPerFrame).mem
      ensures unchanged(palette)
    {
      var pc: nat := pc0;
      ghost var frame := Run(Cpu(memory[..], pc), InstructionsPerFrame);
      ghost var remaining: nat := InstructionsPerFrame;
      for i := 0 to InstructionsPerFrame
        invariant pc < AddressSpace && remaining == InstructionsPerFrame - i
        invariant Run(Cpu(memory[..], pc), remaining) == frame
      {
        ghost var c := Cpu(memory[..], pc);
        pc := ExecuteInstruction(pc);
        RunAfterStep(c, Cpu(memory[..], pc), remaining, frame);
        remaining := remaining - 1;
      }
    }

    /** The body of that loop: copy the byte at the source field's address
      to the destination field's address, then read the next pc. */
    method ExecuteInstruction(pc: nat) returns (next: nat)
      requires memory.Length == MemorySize && pc < AddressSpace
      modifies memory
      ensures Cpu(memory[..], next) == Step(Cpu(old(memory[..]), pc))
    {
      memory[Get3BytesValue(pc + 3)] := memory[Get3BytesValue(pc)];
      next := Get3BytesValue(pc + 6);
    }

    /** The screen loop of `Clock`, with its running `screenIndex`. */
    method DrawScreen()
      requires memory.Length == MemorySize && screen.Length == ScreenBytes
      requires palette[..] == PaletteTable() && memory != screen
      modifies screen
      ensures screen[..] == Video(memory[..])
      ensures memory[..] == old(memory[..]) && unchanged(palette)
    {
      ghost var m := memory[..];
      ghost var table := palette[..];
      var index := (memory[5] as int) * 0x1_0000;
      assert index == VideoBase(m);
      ghost var video := Video(m);
      var screenIndex := 0;
      for i := 0 to PixelCount
        invariant screenIndex == 3 * i
        invariant forall j :: 0 <= j < screenIndex ==> screen[j] == video[j]
      {
        VideoPixel(m, i);
        assert memory[index + i] == m[index + i];
        var p := palette[memory[index + i]];
        assert p == table[memory[index + i]];
        assert video[3 * i] == p.red && video[3 * i + 1] == p.green && video[3 * i + 2] == p.blue;
        screen[screenIndex] := p.red;
        screenIndex := screenIndex + 1;
        screen[screenIndex] := p.green;
        screenIndex := screenIndex + 1;
        screen[screenIndex] := p.blue;
        screenIndex := screenIndex + 1;
      }
      assert memory[..] == m;
    }

    /** The sample loop of `Clock`. */
    method PlayAudio()
      requires memory.Length == MemorySize && audioSamples.Length == SampleCount
      requires memory as object != audioSamples
      modifies audioSamples
      ensures audioSamples[..] == Audio(memory[..])
      ensures memory[..] == old(memory[..]) && screen[..] == old(screen[..])
      ensures unchanged(palette)
    {
      var audioIndex := (memory[6] as int) * 0x1_0000 + (memory[7] as int) * 0x100;
      for i := 0 to SampleCount
        invariant forall j :: 0 <= j < i ==> audioSamples[j] == Audio(memory[..])[j]
      {
        audioSamples[i] := Signed(memory[audioIndex + i]);
        assert audioIndex == AudioBase(memory[..]);
        assert audioSamples[i] == Audio(memory[..])[i];
      }
    }
  }
}
