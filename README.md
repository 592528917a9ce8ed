# BytePusher.NET core, modelled in Dafny

This project models the emulated machine of BytePusher.NET, found in
`BytePusher.NET.Core/BytePusher.cs`. BytePusher is a virtual machine with one
instruction, "copy a byte, then jump". Its memory holds 16 MiB plus an
8-byte margin. Each frame, `Clock` does four things:

- it latches the 16-bit key state big-endian into addresses 0 and 1;
- it reads the start pc as a big-endian 24-bit value at address 2;
- it runs exactly 65536 instructions. Each instruction is three 24-bit
  fields (source, destination, next pc);
- it fills a 256×256 RGB screen through a fixed 6×6×6 colour-cube palette,
  and 256 signed audio samples. The screen and sample pages are located by
  bytes 5, 6 and 7.

Modules, one per component of the machine:

- `MemoryImage` (`memory.dfy`) has the byte types, the memory size and the
  24-bit big-endian read `Read24` (the source's `Get3BytesValue`). It also
  has the signed-byte cast.
- `Keys` (`keys.dfy`) has the `Keys` flags and the two latched bytes.
- `Palette` (`palette.dfy`) has `Pixel`, the palette table and the static
  constructor's loop (`BuildPalette`).
- `InstructionCycle` (`cycle.dfy`) gives the meaning of one instruction
  (`Step`), of n of them (`Run`) and of a frame (`Execute`), as functions
  on the memory contents.
- `FrameExtractor` (`frame.dfy`) gives the screen (`Video`) and the samples
  (`Audio`) a memory yields.
- `Machine` (`machine.dfy`) has the `BytePusher` class. Its fields are the
  `memory`, `screen` and `audioSamples` arrays, the palette array and
  `keysState`. `Load` and `Clock` update the arrays in place, and each is
  proved against the functions above.
- `Arithmetic` (`arith.dfy`) has the powers of two and the division and multiplication facts the proofs use.

The shifts and ORs of the source (`m[a] << 16 | m[a+1] << 8 | m[a+2]`,
`memory[5] << 16`, `(memory[6] << 16) | (memory[7] << 8)`) combine bytes
whose bit ranges do not overlap. The model therefore writes them as
multiplication by 0x10000 and 0x100 and addition, which give the same value.

`Load` follows the code rather than a reading in which an oversized image
is truncated. `Array.Clear` runs first. `Array.Copy` then throws before
copying anything when the image is longer than the memory. An oversized
image therefore leaves an all-zero memory and an `ImageTooLarge` failure.

## Model

| member | source | states |
|---|---|---|
| `MemoryImage.Read24` | BytePusher.NET.Core/BytePusher.cs:36 | the value of a three-byte field is below 2^24 |
| `MemoryImage.Read24Bytes` | BytePusher.NET.Core/BytePusher.cs:36 | the value's high, middle and low bytes are m[a], m[a+1], m[a+2] (big-endian decoding) |
| `MemoryImage.Read24Write` | BytePusher.NET.Core/BytePusher.cs:36 | storing any 24-bit value big-endian and reading it back with `Read24` gives the value; the store touches no other byte |
| `MemoryImage.Signed` | BytePusher.NET.Core/BytePusher.cs:59 | the `(sbyte)` cast keeps the bits (the result is the byte mod 256) and is negative exactly when the byte is 0x80 or more |
| `MemoryImage.SignedInjective` | BytePusher.NET.Core/BytePusher.cs:59 | two bytes with the same signed reading are equal |
| `MemoryImage.Zeroes` | BytePusher.NET.Core/BytePusher.cs:22 | a freshly allocated or cleared memory of n bytes holds zero at every address |
| `Keys.Index` | BytePusher.NET.Core/BytePusher.cs:78-97 | every key has a bit position below 16 |
| `Keys.Flag` | BytePusher.NET.Core/BytePusher.cs:78-97 | the enum value of key i is 2^i (`1 << i`) |
| `Keys.FlagHoldsOnlyItsKey` | BytePusher.NET.Core/BytePusher.cs:78-97 | a key's flag has that key's bit set and no other key's: key k' is held in Flag(k) exactly when k' == k |
| `Keys.HighByte` | BytePusher.NET.Core/BytePusher.cs:33 | `(byte)((ushort)KeysState >> 8)` is the quotient by 256: the key state lies in [256·b, 256·b + 256) |
| `Keys.LowByte` | BytePusher.NET.Core/BytePusher.cs:34 | `(byte)KeysState` is the remainder: a byte that differs from the key state by a multiple of 256 |
| `Keys.LatchBytesBigEndian` | BytePusher.NET.Core/BytePusher.cs:33-34 | the bytes written to addresses 0 and 1 are the key state's high and low byte: 256·hi + lo is the key state |
| `Keys.HeldInLatchedByte` | BytePusher.NET.Core/BytePusher.cs:33-34 | keys 0–7 are bits 0–7 of the byte at address 1; keys 8–F are bits 0–7 of the byte at address 0 |
| `Palette.PaletteEntry` | BytePusher.NET.Core/BytePusher.cs:5-15 | the entry the static constructor leaves at index i is black (the `Pixel` struct default) exactly when i is 0 or one of 216–255; every other cube entry has a non-zero channel |
| `Palette.PaletteTable` | BytePusher.NET.Core/BytePusher.cs:5-15 | the static `palette` array holds 256 entries, entry i being `PaletteEntry(i)` |
| `Palette.CubeIndexOfEntry` | BytePusher.NET.Core/BytePusher.cs:9-15 | for i < 216, reading entry i's channel levels (channel / 0x33) back as base-6 digits, red first, gives i: the loop's `i / 36`, `i / 6 % 6`, `i % 6` split is undone |
| `Palette.CubeEntry` | BytePusher.NET.Core/BytePusher.cs:9-15 | for r, g, b below 6, entry 36r + 6g + b is the colour (0x33·r, 0x33·g, 0x33·b) |
| `Palette.ChannelsAreLevels` | BytePusher.NET.Core/BytePusher.cs:9-15 | every channel of every entry is a multiple of 0x33 |
| `Palette.CubeInjective` | BytePusher.NET.Core/BytePusher.cs:9-15 | the 216 cube entries are 216 different colours |
| `Palette.BuildPalette` | BytePusher.NET.Core/BytePusher.cs:5-16 | the static constructor's loop yields a fresh 256-entry table equal to `PaletteTable()`, entry i being `PaletteEntry(i)`: the cube colour for i < 216, black beyond |
| `InstructionCycle.Source` | BytePusher.NET.Core/BytePusher.cs:42 | the source address of an instruction is below 2^24 |
| `InstructionCycle.Dest` | BytePusher.NET.Core/BytePusher.cs:42 | the destination address is below 2^24 |
| `InstructionCycle.Next` | BytePusher.NET.Core/BytePusher.cs:43 | the next pc is below 2^24, so the next nine instruction bytes, up to pc + 8 ≤ 2^24 + 7, are in bounds |
| `InstructionCycle.Step` | BytePusher.NET.Core/BytePusher.cs:42-43 | one instruction keeps the memory size and leaves a pc below 2^24 |
| `InstructionCycle.StepEffect` | BytePusher.NET.Core/BytePusher.cs:42-43 | one instruction sets the destination byte to the source byte as read before the write, changes no other byte, and takes the next pc from memory after the write |
| `InstructionCycle.NextReadAfterCopy` | BytePusher.NET.Core/BytePusher.cs:42-43 | an instruction that copies into the top byte of its own next-pc field jumps into the 64 KiB bank the copied byte names |
| `InstructionCycle.Run` | BytePusher.NET.Core/BytePusher.cs:40-44 | any number of instructions keeps the memory size and the pc below 2^24: no address ever leaves the array |
| `InstructionCycle.RunAfterStep` | BytePusher.NET.Core/BytePusher.cs:40-44 | after one instruction, the remaining n - 1 reach the same state as n from before it: the loop invariant of the instruction loop |
| `InstructionCycle.RunAdditive` | BytePusher.NET.Core/BytePusher.cs:40-44 | running a + b instructions is running a, then b |
| `InstructionCycle.RunLast` | BytePusher.NET.Core/BytePusher.cs:40-44 | the (n+1)-th instruction runs on the state after the first n |
| `InstructionCycle.RunPeriodic` | BytePusher.NET.Core/BytePusher.cs:40-44 | if the machine returns to its state after k instructions, n instructions have the effect of n mod k |
| `InstructionCycle.SameInstruction` | BytePusher.NET.Core/BytePusher.cs:42-43 | two memories that agree on the nine bytes at pc decode the same source, destination and next pc there |
| `InstructionCycle.StepStaysOnLoop` | BytePusher.NET.Core/BytePusher.cs:42-43 | a self-jumping instruction that does not write into its own nine bytes reaches a fixed point after one step |
| `InstructionCycle.SelfLoop` | BytePusher.NET.Core/BytePusher.cs:40-44 | for such an instruction, any positive number of iterations equals a single step |
| `InstructionCycle.Latch` | BytePusher.NET.Core/BytePusher.cs:33-34 | after the latch, 256·m[0] + m[1] is the key state, and every byte from address 2 on is unchanged |
| `InstructionCycle.FrameStart` | BytePusher.NET.Core/BytePusher.cs:33-38 | the frame starts from a full-size memory and a pc below 2^24 |
| `InstructionCycle.StartPcUnaffectedByLatch` | BytePusher.NET.Core/BytePusher.cs:33-38 | the start pc is the 24-bit field at address 2 of the memory before the latch |
| `InstructionCycle.Execute` | BytePusher.NET.Core/BytePusher.cs:31-44 | a frame's instructions keep the memory size |
| `InstructionCycle.ExecuteOnCycle` | BytePusher.NET.Core/BytePusher.cs:40-44 | a program whose instructions return to the frame's start state after p steps gets the effect of 65536 mod p steps; the count is fixed, not run to a fixpoint |
| `InstructionCycle.ExecuteAfterLeadIn` | BytePusher.NET.Core/BytePusher.cs:38-44 | a program that, after a lead-in of a ≤ 65536 instructions, returns to the same state every p instructions ends the frame where the lead-in followed by (65536 − a) mod p instructions ends |
| `InstructionCycle.RunAfterLeadIn` | BytePusher.NET.Core/BytePusher.cs:40-44 | if the state after a instructions recurs after p more, a + n instructions end where the lead-in followed by n mod p instructions ends |
| `InstructionCycle.ExecuteSelfLoop` | BytePusher.NET.Core/BytePusher.cs:38-44 | a frame whose start pc is a non-self-modifying, self-jumping copy has the memory of a single copy |
| `FrameExtractor.VideoBase` | BytePusher.NET.Core/BytePusher.cs:46 | all 65536 bytes of the video page lie below 2^24 |
| `FrameExtractor.VideoBasePage` | BytePusher.NET.Core/BytePusher.cs:46 | the video page starts on a 64 KiB boundary, and its page number is byte 5 |
| `FrameExtractor.AudioBase` | BytePusher.NET.Core/BytePusher.cs:56 | all 256 bytes of the audio page lie below 2^24 |
| `FrameExtractor.AudioBasePage` | BytePusher.NET.Core/BytePusher.cs:56 | the audio page starts on a 256-byte boundary; its address has byte 6 as high byte and byte 7 as middle byte |
| `FrameExtractor.Video` | BytePusher.NET.Core/BytePusher.cs:46-54 | the screen is exactly 3·65536 bytes |
| `FrameExtractor.VideoPixel` | BytePusher.NET.Core/BytePusher.cs:46-54 | screen bytes 3i, 3i+1 and 3i+2 are the red, green and blue of the palette entry of video-page byte i |
| `FrameExtractor.VideoReadsOnlyItsPage` | BytePusher.NET.Core/BytePusher.cs:46-54 | the screen depends only on byte 5 and the video page |
| `FrameExtractor.Audio` | BytePusher.NET.Core/BytePusher.cs:56-60 | there are exactly 256 samples |
| `FrameExtractor.AudioSample` | BytePusher.NET.Core/BytePusher.cs:56-60 | sample i has the bits of audio-page byte i, and is negative exactly when that byte is 0x80 or more |
| `FrameExtractor.AudioReadsOnlyItsPage` | BytePusher.NET.Core/BytePusher.cs:56-60 | the samples depend only on bytes 6 and 7 and the audio page |
| `Machine.LoadedImage` | BytePusher.NET.Core/BytePusher.cs:24-29 | the loaded memory holds the image at addresses below the image length and zero elsewhere; an oversized image leaves all zeroes |
| `Machine.LoadedImageRoundTrip` | BytePusher.NET.Core/BytePusher.cs:24-29 | two images of the same fitting length that load to the same memory are the same image |
| `Machine.BytePusher.constructor` | BytePusher.NET.Core/BytePusher.cs:18-22 | a new machine has zeroed memory, screen and samples, no key held, and its arrays have the source's sizes |
| `Machine.BytePusher.Get3BytesValue` | BytePusher.NET.Core/BytePusher.cs:36 | the array read is `Read24` of the memory contents |
| `Machine.BytePusher.Load` | BytePusher.NET.Core/BytePusher.cs:24-29 | the memory becomes `LoadedImage(data)`; the outcome is `Loaded` exactly when the image fits, and `Failed(ImageTooLarge)` otherwise; the machine stays valid |
| `Machine.BytePusher.Clock` | BytePusher.NET.Core/BytePusher.cs:31-61 | the memory becomes `Execute` of the old memory and the key state; the whole screen is `Video` and all samples are `Audio` of the new memory; the machine stays valid |
| `Machine.BytePusher.RunFrame` | BytePusher.NET.Core/BytePusher.cs:33-44 | latching the keys, reading the start pc and running the loop leave the memory `Execute` gives |
| `Machine.BytePusher.LatchKeys` | BytePusher.NET.Core/BytePusher.cs:33-34 | the two array writes leave the memory `Latch` gives |
| `Machine.BytePusher.RunInstructions` | BytePusher.NET.Core/BytePusher.cs:38-44 | the 65536-iteration loop leaves the memory that `Run` gives for 65536 instructions from the given pc |
| `Machine.BytePusher.ExecuteInstruction` | BytePusher.NET.Core/BytePusher.cs:42-43 | the loop body's write and pc update take the memory and pc to `Step` of the old ones |
| `Machine.BytePusher.DrawScreen` | BytePusher.NET.Core/BytePusher.cs:46-54 | the loop with its running `screenIndex` overwrites every screen byte with `Video` of the memory |
| `Machine.BytePusher.PlayAudio` | BytePusher.NET.Core/BytePusher.cs:56-60 | the loop sets every sample to `Audio` of the memory |

## Left out

- Reading the file in `Load` (`File.ReadAllBytes`, BytePusher.NET.Core/BytePusher.cs:26) is I/O. `Load` takes the file's bytes as a parameter, so a file that cannot be read is not modelled.
- BytePusher.NET/Graphics.cs, BytePusher.NET/Audio.cs and BytePusher.NET/Program.cs are not part of this model. They hold the window, OpenGL, OpenAL and command-line code. This includes turning physical keys into the `Keys` mask, the signed-to-unsigned shift of samples for playback, and the 60 Hz frame pacing.
- In the source, the statements of `Clock` sit inline in one method. The model splits them into helper methods that `Clock` calls in the source's order: `RunFrame` (the key latch in `LatchKeys`, the start pc read, then `RunInstructions`, whose loop body is `ExecuteInstruction`), `DrawScreen` and `PlayAudio`. Proving them in one method body is too costly for the verifier. The statements and their order are the source's. Dafny has no private members, so these helpers can also be called on their own, which the source does not allow.
- The static `palette` array is passed to the constructor and shared, rather than held in a static field. Dafny classes have no static mutable fields. `Valid()` requires the array to hold `PaletteTable()`, which is `PaletteEntry(i)` at every index i.
- `KeysState` is a public field that the host assigns before each `Clock`. No setter is modelled.
- `InstructionCycle.Execute`: its own contract states only the memory size. What a frame does is stated by `StepEffect`, `RunAdditive`, `RunPeriodic`, `ExecuteOnCycle` and `ExecuteSelfLoop`, and by `Clock`'s postcondition.
