/** The two jumps that hooks plant, as the processor executes them. */
module Jumps {
  import opened Words
  import opened OpcodeTable
  import opened Ldasm
  import opened Memory
  import opened Trampoline
  import opened Machines

  /** Unconditional jumps, near and short, are always taken and change nothing else. */
  ghost predicate JumpsArePlain<D(!new)>(sem: Semantics<D>) {
    JumpIsPlain(sem) && forall d :: sem.taken([0xEB], d) && sem.effect([0xEB], d) == d
  }

  lemma ShortJumpFlags()
    ensures CodeFlags(0xEB) == 0x81
  {
  }

  lemma ShortDecodes(code: Bytes)
    requires |code| >= 2 && code[0] == 0xEB
    ensures SizeOf(code) == Some(Decoded(2, 0))
  {
    ShortJumpFlags();
    hide CodeFlags;
    assert code[0..] == code;
  }

  lemma ShortJumpDecodes(ins: Bytes)
    requires |ins| == 2 && ins[0] == 0xEB
    ensures IsInstruction(ins) && IsRelative(ins) && !IsCall(ins) && !Cuts(ins) && KeyLength(ins) == 1 && ins[..1] == [0xEB]
  {
    hide CodeFlags, SizeOf;
    ShortJumpFlags();
    ShortDecodes(ins);
    assert ins[0..] == ins;
  }

  lemma ShortJumpRuns<D(!new)>(mc: Machine<D>, m: Bytes, a: nat, data: D)
    requires a < SPACE && a + 5 <= |m| && m[a] == 0xEB && JumpsArePlain(mc.sem)
    ensures Next(mc, m, Cpu(a, data)) == Some(Cpu(Wrap(a + 2 + Signed8(m[a + 1])), data))
  {
    hide CodeFlags, SizeOf, IsInstruction, IsRelative, KeyLength, IsCall, Wrap, Signed8, InstructionAt, Cuts;
    var ins := m[a..a + 2];
    ShortJumpDecodes(ins);
    FoundAt(m, a, ins);
    assert ins[1..] == [m[a + 1]];
    WrapAdds(Signed8(m[a + 1]), a + 2);
  }

  lemma AnyWord(b: Bytes)
    requires |b| == 4
    ensures Bytes32(Word32(b)) == b
  {
    var b0: nat, b1: nat, b2: nat, b3: nat := b[0], b[1], b[2], b[3];
    var v := b0 + 0x100 * b1 + 0x1_0000 * b2 + 0x100_0000 * b3;
    assert v == b0 + 0x100 * (b1 + 0x100 * (b2 + 0x100 * b3));
    assert v / 0x100 == b1 + 0x100 * (b2 + 0x100 * b3) && v % 0x100 == b0;
    assert v / 0x1_0000 == b2 + 0x100 * b3;
    assert v / 0x100_0000 == b3;
  }

  lemma NearJumpRuns<D(!new)>(mc: Machine<D>, m: Bytes, a: nat, data: D)
    requires a < SPACE && a + 5 <= |m| && m[a] == 0xE9 && JumpsArePlain(mc.sem)
    ensures Next(mc, m, Cpu(a, data)) == Some(Cpu(Wrap(a + 5 + Word32(m[a + 1..a + 5])), data))
  {
    hide CodeFlags, SizeOf, IsInstruction, Wrap, InstructionAt, Run, Bytes32, Word32;
    var word := Word32(m[a + 1..a + 5]);
    AnyWord(m[a + 1..a + 5]);
    WordIsWrapped(word);
    assert m[a..a + 5] == [0xE9] + m[a + 1..a + 5];
    assert m[a..a + 5] == Jump(a, a + 5 + word);
    JumpRuns(mc.sem, a, a + 5 + word, data);
    FoundAt(m, a, m[a..a + 5]);
  }

  lemma WordIsWrapped(word: Address)
    ensures Wrap(word) == word
  {
  }

  /** A jump target is where execution goes, with the same data. */
  lemma JumpTargetRuns<D(!new)>(mc: Machine<D>, m: Bytes, a: nat, data: D)
    requires a < SPACE && a + 5 <= |m| && JumpTarget(m, a).Some? && JumpsArePlain(mc.sem)
    ensures Next(mc, m, Cpu(a, data)) == Some(Cpu(JumpTarget(m, a).value, data))
  {
    hide Wrap, Word32, Signed8, Next, JumpsArePlain;
    if m[a] == 0xE9 {
      NearJumpRuns(mc, m, a, data);
    } else {
      ShortJumpRuns(mc, m, a, data);
    }
  }

  /** For example a procedure that begins with a short jump: the copy jumps as far, from elsewhere. */
  lemma ShortJumpGoesAstray<D>(sem: Semantics<D>, data: D)
    requires sem.taken([0xEB], data)
    ensures IsInstruction([0xEB, 0x10])
    ensures Run(sem, [0xEB, 0x10], 0x1000, data) == Transfers(0x1012, sem.effect([0xEB], data))
    ensures Run(sem, [0xEB, 0x10], 0x2000, data) == Transfers(0x2012, sem.effect([0xEB], data))
  {
    hide CodeFlags, SizeOf, IsInstruction, IsRelative, KeyLength, IsCall, Cuts;
    var ins: Bytes := [0xEB, 0x10];
    ShortJumpDecodes(ins);
    assert ins[..1] == [0xEB] && ins[1..] == [0x10];
  }
}
