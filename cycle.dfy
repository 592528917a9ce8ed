/** The one instruction, "copy a byte, then jump", and the fixed number
    of them that make up a frame. */
module InstructionCycle {
  import opened MemoryImage
  import Keys
  import Arithmetic

  /** Instructions executed per frame. */
  const InstructionsPerFrame: nat := 65536

  /** The machine between two instructions: its memory and the local `pc`. */
  datatype Cpu = Cpu(mem: seq<byte>, pc: nat)

  /** A well-formed machine: full-size memory and a 24-bit pc, which is all
      that is needed for the nine bytes of the instruction to be in bounds. */
  predicate Valid(s: Cpu) {
    |s.mem| == MemorySize && s.pc < AddressSpace
  }

  /** The three fields of the instruction at `pc`. */
  function Source(m: seq<byte>, pc: nat): (a: nat)
    requires |m| == MemorySize && pc < AddressSpace
    ensures a < AddressSpace
  {
    Read24(m, pc)
  }

  function Dest(m: seq<byte>, pc: nat): (a: nat)
    requires |m| == MemorySize && pc < AddressSpace
    ensures a < AddressSpace
  {
    Read24(m, pc + 3)
  }

  function Next(m: seq<byte>, pc: nat): (a: nat)
    requires |m| == MemorySize && pc < AddressSpace
    ensures a < AddressSpace
  {
    Read24(m, pc + 6)
  }

  /** One iteration of the loop in `Clock`: source and destination are
      read, one byte is copied, and the next pc is read from the memory
      as it is after the copy. */
  function Step(s: Cpu): (s': Cpu)
    requires Valid(s)
    ensures Valid(s')
  {
    var m' := s.mem[Dest(s.mem, s.pc) := s.mem[Source(s.mem, s.pc)]];
    Cpu(m', Next(m', s.pc))
  }

  /** What one instruction does: the byte at the destination becomes the
      byte the source held before the copy, every other byte keeps its
      value, and the new pc is the next-pc field as it reads after the copy. */
  lemma StepEffect(s: Cpu)
    requires Valid(s)
    ensures forall x :: 0 <= x < MemorySize ==>
      Step(s).mem[x] == if x == Dest(s.mem, s.pc) then s.mem[Source(s.mem, s.pc)] else s.mem[x]
    ensures Step(s).pc == Next(Step(s).mem, s.pc)
  {
  }

  /** The state after `n` instructions from `s`. */
  function Run(s: Cpu, n: nat): (s': Cpu)
    requires Valid(s)
    ensures Valid(s')
    decreases n
  {
    if n == 0 then s else Run(Step(s), n - 1)
  }

  /** The key latch: the key state's high byte to address 0, its low byte
      to address 1. */
  function Latch(m: seq<byte>, keys: ushort): (m': seq<byte>)
    requires |m| == MemorySize
    ensures |m'| == MemorySize
    ensures (m'[0] as int) * 0x100 + m'[1] == keys
    ensures forall x :: 2 <= x < MemorySize ==> m'[x] == m[x]
  {
    m[0 := Keys.HighByte(keys)][1 := Keys.LowByte(keys)]
  }

  /** The machine at the start of a frame: keys latched, pc read from the
      24-bit field at address 2 of the latched memory. */
  function FrameStart(m: seq<byte>, keys: ushort): (s: Cpu)
    requires |m| == MemorySize
    ensures Valid(s)
  {
    var m' := Latch(m, keys);
    Cpu(m', Read24(m', 2))
  }

  /** The memory after the instruction part of `Clock`. */
  function Execute(m: seq<byte>, keys: ushort): (m': seq<byte>)
    requires |m| == MemorySize
    ensures |m'| == MemorySize
  {
    Run(FrameStart(m, keys), InstructionsPerFrame).mem
  }

  /** Running a + b instructions is running a, then b more. */
  lemma {:induction false} RunAdditive(s: Cpu, a: nat, b: nat)
    requires Valid(s)
    ensures Run(s, a + b) == Run(Run(s, a), b)
    decreases a
  {
    if a > 0 {
      var s1 := Step(s);
      calc {
        Run(s, a + b);
        Run(s1, a - 1 + b);
        { RunAdditive(s1, a - 1, b); }
        Run(Run(s1, a - 1), b);
        Run(Run(s, a), b);
      }
    }
  }

  /** Once one instruction has run, n - 1 more reach the state n would
      have reached from before it. */
  lemma RunAfterStep(c: Cpu, c': Cpu, n: nat, t: Cpu)
    requires Valid(c) && n > 0 && Run(c, n) == t && c' == Step(c)
    ensures Run(c', n - 1) == t
  {
  }

  /** The last of n + 1 instructions runs on the state after the first n. */
  lemma RunLast(s: Cpu, n: nat)
    requires Valid(s)
    ensures Run(s, n + 1) == Step(Run(s, n))
  {
    RunAdditive(s, n, 1);
  }

  /** If the program returns to a state after k instructions, the whole
      frame is that loop repeated: after n instructions the machine is where
      it is after n mod k of them. */
  lemma {:induction false} RunPeriodic(s: Cpu, k: nat, n: nat)
    requires Valid(s) && k > 0 && Run(s, k) == s
    ensures Run(s, n) == Run(s, n % k)
    decreases n
  {
    if n >= k {
      calc {
        Run(s, n);
        { RunAdditive(s, k, n - k); }
        Run(Run(s, k), n - k);
        Run(s, n - k);
        { RunPeriodic(s, k, n - k); }
        Run(s, (n - k) % k);
        { Arithmetic.ModSubDivisor(n, k); }
        Run(s, n % k);
      }
    } else {
      Arithmetic.DivUnique(n, k, 0, n);
    }
  }

  /** An instruction that copies `src` to `dst` and jumps to itself, and
      does not overwrite its own nine bytes, makes every frame that starts
      on it do that one copy: however many instructions run, the effect is
      that of one. */
  lemma {:induction false} SelfLoop(s: Cpu, n: nat)
    requires Valid(s) && n > 0
    requires Next(s.mem, s.pc) == s.pc
    requires !(s.pc <= Dest(s.mem, s.pc) < s.pc + 9)
    ensures Run(s, n) == Step(s)
    decreases n
  {
    if n > 1 {
      SelfLoop(s, n - 1);
      StepStaysOnLoop(s);
    }
  }

  /** The step of a self-loop leaves the instruction in place, and a second
      step copies the same byte again, which changes nothing. */
  lemma StepStaysOnLoop(s: Cpu)
    requires Valid(s)
    requires Next(s.mem, s.pc) == s.pc
    requires !(s.pc <= Dest(s.mem, s.pc) < s.pc + 9)
    ensures Step(Step(s)) == Step(s)
  {
    var d := Dest(s.mem, s.pc);
    var s1 := Step(s);
    SameInstruction(s.mem, s1.mem, s.pc);
    assert s1.pc == s.pc;
    var s2 := Step(s1);
    assert s2.mem == s1.mem;
  }

  /** Memories that agree on the nine bytes at `pc` hold the same instruction. */
  lemma SameInstruction(m: seq<byte>, m': seq<byte>, pc: nat)
    requires |m| == MemorySize && |m'| == MemorySize && pc < AddressSpace
    requires forall x :: pc <= x < pc + 9 ==> m[x] == m'[x]
    ensures Source(m, pc) == Source(m', pc)
    ensures Dest(m, pc) == Dest(m', pc)
    ensures Next(m, pc) == Next(m', pc)
  {
    assert m[pc] == m'[pc] && m[pc + 1] == m'[pc + 1] && m[pc + 2] == m'[pc + 2];
    assert m[pc + 3] == m'[pc + 3] && m[pc + 4] == m'[pc + 4] && m[pc + 5] == m'[pc + 5];
    assert m[pc + 6] == m'[pc + 6] && m[pc + 7] == m'[pc + 7] && m[pc + 8] == m'[pc + 8];
  }

  /** The jump target is read after the copy: an instruction that copies
      into its own next-pc field jumps to where the copied byte points. */
  lemma NextReadAfterCopy(s: Cpu)
    requires Valid(s)
    requires Dest(s.mem, s.pc) == s.pc + 6
    ensures Step(s).pc / 0x1_0000 == s.mem[Source(s.mem, s.pc)]
  {
  }

  /** The latch writes addresses 0 and 1 only, so the start pc is the
      24-bit field at address 2 of the memory as it was before the frame. */
  lemma StartPcUnaffectedByLatch(m: seq<byte>, keys: ushort)
    requires |m| == MemorySize
    ensures FrameStart(m, keys).pc == Read24(m, 2)
  {
  }

  /** A frame whose instructions come back to the frame's starting state
      after p of them has the effect of 65536 mod p instructions: the
      count is fixed, and the loop just repeats. */
  lemma ExecuteOnCycle(m: seq<byte>, keys: ushort, p: nat)
    requires |m| == MemorySize && p > 0
    requires Run(FrameStart(m, keys), p) == FrameStart(m, keys)
    ensures Execute(m, keys) == Run(FrameStart(m, keys), InstructionsPerFrame % p).mem
  {
    RunPeriodic(FrameStart(m, keys), p, InstructionsPerFrame);
  }

  /** A program that enters a cycle of p instructions after a lead-in of a
      instructions, for instance one whose first lap writes the pattern the
      later laps repeat, ends the frame where the lead-in followed by
      (65536 - a) mod p instructions of the cycle ends. */
  lemma ExecuteAfterLeadIn(m: seq<byte>, keys: ushort, a: nat, p: nat)
    requires |m| == MemorySize && p > 0 && a <= InstructionsPerFrame
    requires Run(FrameStart(m, keys), a + p) == Run(FrameStart(m, keys), a)
    ensures Execute(m, keys) == Run(Run(FrameStart(m, keys), a), (InstructionsPerFrame - a) % p).mem
  {
    RunAfterLeadIn(FrameStart(m, keys), a, p, InstructionsPerFrame - a, InstructionsPerFrame);
  }

  /** After a lead-in of a instructions the machine runs in a cycle of p:
      k = a + n instructions end where the lead-in followed by n mod p
      instructions ends. */
  lemma RunAfterLeadIn(s: Cpu, a: nat, p: nat, n: nat, k: nat)
    requires Valid(s) && p > 0 && Run(s, a + p) == Run(s, a) && k == a + n
    ensures Run(s, k) == Run(Run(s, a), n % p)
  {
    var t := Run(s, a);
    calc {
      Run(t, p);
      { RunAdditive(s, a, p); }
      t;
    }
    calc {
      Run(s, k);
      { RunAdditive(s, a, n); }
      Run(t, n);
      { RunPeriodic(t, p, n); }
      Run(t, n % p);
    }
  }

  /** A frame whose start pc points at an instruction that jumps to itself
      and does not overwrite itself copies one byte, once in effect. */
  lemma ExecuteSelfLoop(m: seq<byte>, keys: ushort)
    requires |m| == MemorySize
    requires var s := FrameStart(m, keys);
      Next(s.mem, s.pc) == s.pc && !(s.pc <= Dest(s.mem, s.pc) < s.pc + 9)
    ensures var s := FrameStart(m, keys);
      Execute(m, keys) == s.mem[Dest(s.mem, s.pc) := s.mem[Source(s.mem, s.pc)]]
  {
    SelfLoop(FrameStart(m, keys), InstructionsPerFrame);
  }
}
