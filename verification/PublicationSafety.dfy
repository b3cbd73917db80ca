/** Which runs are safe while a procedure is being hot patched: exactly those that fetch nothing from its
    padding. */
module PublicationSafety {
  import opened Words
  import opened OpcodeTable
  import opened Ldasm
  import opened Memory
  import opened Trampoline
  import opened Machines
  import opened Jumps
  import opened CodeHook
  import opened Publication

  // ----------------------------------------------------------------------------------------------
  // Old moments

  /** n instructions none of which is fetched from the padding or the buffer. */
  predicate Avoids<D>(mc: Machine<D>, before: Bytes, src: nat, buf: nat, c: Cpu<D>, n: nat)
    requires Window(before, src)
    decreases n
  {
    n > 0 ==>
      && InstructionAt(before, c.pc).Some?
      && (Padded(before, src) ==>
            var size := |InstructionAt(before, c.pc).value|; Apart(c.pc, size, src - 5, 5) && Apart(c.pc, size, buf, 16))
      && Avoids(mc, before, src, buf, Next(mc, before, c).value, n - 1)
  }

  lemma {:induction false} OldMomentRuns<D>(mc: Machine<D>, before: Bytes, now: Bytes, src: nat, buf: nat, c: Cpu<D>, n: nat)
    requires Window(before, src) && StillOld(before, now, src, buf) && Avoids(mc, before, src, buf, c, n)
    ensures Execute(mc, before, c, n).Some? && Execute(mc, now, c, n) == Execute(mc, before, c, n)
    decreases n
  {
    hide InstructionAt, Run, IsInstruction, Padded, Next;
    if n > 0 {
      if Padded(before, src) {
        SameFetch(before, now, c.pc, InstructionAt(before, c.pc).value);
      }
      SameNext(mc, before, now, c);
      var c' := NextOf(mc, before, c);
      OldMomentRuns(mc, before, now, src, buf, c', n - 1);
    }
  }

  /** Every moment is the finished patch, with the old-procedure pointer in place, and entering the procedure
      reaches the new hook; or every run that fetches nothing from the padding and the buffer, of any number
      of instructions from any place, is the same as before. */
  lemma MomentIsOldOrFinal<D>(
    mc: Machine<D>, before: Bytes, src: Address, newProc: Address, buf: Address, k: nat, c: Cpu<D>, n: nat)
    requires Patchable(before, src, newProc, buf) && k < |PatchMoments(before, src, newProc, buf)|
    ensures var r, p := HotPatched(before, src, newProc, buf), PatchMoments(before, src, newProc, buf);
      if k == |p| - 1 then p[k] == Moment(r.memory, r.hook.oldProc) && Entered(p[k].memory, src) == Some(newProc)
      else Avoids(mc, before, src, buf, c, n) ==>
        Execute(mc, before, c, n).Some? && Execute(mc, p[k].memory, c, n) == Execute(mc, before, c, n)
  {
    hide HotPatched, PatchMoments, StillOld, Avoids, Execute, Jump, Entered;
    OldUntilFinal(before, src, newProc, buf, k);
    if k == |PatchMoments(before, src, newProc, buf)| - 1 {
      FinalBytes(before, src, newProc, buf);
      ShortBackGoes(HotPatched(before, src, newProc, buf).memory, src, newProc);
    } else if Avoids(mc, before, src, buf, c, n) {
      OldMomentRuns(mc, before, PatchMoments(before, src, newProc, buf)[k].memory, src, buf, c, n);
    }
  }

  // ----------------------------------------------------------------------------------------------
  // One instruction

  /** Before its last moment, no hot patch of this procedure changes the instruction at the address. */
  ghost predicate NeverHalfWritten(before: Bytes, src: Address, buf: Address, a: nat) {
    forall newProc: Address, k: nat :: OldMoment(before, src, newProc, buf, k) ==> KeptAt(before, src, newProc, buf, k, a)
  }

  predicate OldMoment(before: Bytes, src: Address, newProc: Address, buf: Address, k: nat) {
    newProc != 0 && Patchable(before, src, newProc, buf) && k + 1 < |PatchMoments(before, src, newProc, buf)|
  }

  predicate KeptAt(before: Bytes, src: Address, newProc: Address, buf: Address, k: nat, a: nat)
    requires OldMoment(before, src, newProc, buf, k)
  {
    InstructionAt(PatchMoments(before, src, newProc, buf)[k].memory, a) == InstructionAt(before, a)
  }

  lemma StillPatchable(before: Bytes, src: Address, newProc: Address, buf: Address)
    requires Patchable(before, src, 1, buf)
    ensures Patchable(before, src, newProc, buf)
  {
    hide SizeOf, Published, FirstMoved;
  }

  lemma PaddingFlags()
    ensures CodeFlags(0x90) == 0 && CodeFlags(0xCC) == 0
  {
  }

  lemma PaddingDecodes(b: Byte)
    requires b == 0x90 || b == 0xCC
    ensures IsInstruction([b])
  {
    hide CodeFlags;
    PaddingFlags();
    assert [b][0..] == [b];
    assert PrefixCount([b]) == Some(0);
  }

  lemma PaddingByte(before: Bytes, src: nat, t: nat)
    requires Window(before, src) && Padded(before, src) && src - 5 <= t < src
    ensures before[t] == 0x90 || before[t] == 0xCC
    ensures InstructionAt(before, t) == Some([before[t]])
  {
    hide SizeOf, CodeFlags, InstructionAt, IsInstruction;
    assert before[t] == before[src - 5..src][t - (src - 5)];
    PaddingDecodes(before[t]);
    assert before[t..t + 1] == [before[t]];
    FoundAt(before, t, [before[t]]);
  }

  /** The moment between the jump in the padding and the short jump to it. */
  lemma HalfWritten(before: Bytes, src: Address, newProc: Address, buf: Address) returns (k: nat)
    requires Patchable(before, src, newProc, buf) && Padded(before, src)
    ensures k + 2 == |PatchMoments(before, src, newProc, buf)|
    ensures var m := PatchMoments(before, src, newProc, buf)[k].memory;
      |m| == |before| && m[src - 5..src] == Jump(src - 5, newProc)
  {
    hide SizeOf, Jump, Write, Bytes32, Word32, Wrap, Published, FirstMoved, MoveMoments;
    if before[src..src + 2] == MOV_EDI_EDI {
      k := 2;
    } else {
      k := 5;
      MomentCounts(before, src, buf, before, src, newProc);
    }
  }

  /** A new hook for which the displacement of the jump consists of C3, or C2. */
  lemma OddHook(src: Address) returns (newProc: Address, b: Byte)
    requires 5 <= src
    ensures newProc != 0 && (b == 0xC3 || b == 0xC2) && Jump(src - 5, newProc) == [0xE9, b, b, b, b]
  {
    b := if Wrap(src as int + 0xC3C3C3C3) != 0 then 0xC3 else 0xC2;
    var word := if b == 0xC3 then 0xC3C3C3C3 else 0xC2C2C2C2;
    newProc := Wrap(src as int + word);
    JumpBy(src, word);
    assert Bytes32(0xC3C3C3C3) == [0xC3, 0xC3, 0xC3, 0xC3] && Bytes32(0xC2C2C2C2) == [0xC2, 0xC2, 0xC2, 0xC2];
  }

  lemma JumpBy(src: int, word: Address)
    ensures Jump(src - 5, Wrap(src + word)) == [0xE9] + Bytes32(word)
  {
    hide Bytes32, Wrap;
    WrapAdds(-src, src + word);
    WordIsWrapped(word);
  }

  /** An instruction that shares a byte with the padding is not what it was at some moment of some patch. */
  lemma SharedByteChanges(before: Bytes, src: Address, buf: Address, a: nat, ins: Bytes) returns (newProc: Address, k: nat)
    requires Patchable(before, src, 1, buf) && Padded(before, src)
    requires InstructionAt(before, a) == Some(ins) && !Apart(a, |ins|, src - 5, 5)
    ensures OldMoment(before, src, newProc, buf, k) && !KeptAt(before, src, newProc, buf, k, a)
  {
    hide HotPatched, PatchMoments, InstructionAt, IsInstruction, Padded, Jump;
    var b: Byte;
    newProc, b := OddHook(src);
    StillPatchable(before, src, newProc, buf);
    k := HalfWritten(before, src, newProc, buf);
    var m := PatchMoments(before, src, newProc, buf)[k].memory;
    var p := if a < src - 5 then src - 5 else a;
    PaddingByte(before, src, p);
    assert m[p] == m[src - 5..src][p - (src - 5)];
    OtherByte(before, m, a, ins, p);
  }

  lemma OtherByte(before: Bytes, now: Bytes, a: nat, ins: Bytes, p: nat)
    requires InstructionAt(before, a) == Some(ins) && a <= p < a + |ins| && p < |now| && now[p] != before[p]
    ensures InstructionAt(now, a) != Some(ins)
  {
    hide InstructionAt, IsInstruction;
    if InstructionAt(now, a).Some? {
      var other := InstructionAt(now, a).value;
      if |other| == |ins| {
        assert other == now[a..a + |ins|];
        assert other[p - a] == now[p];
        assert ins[p - a] == before[p];
      }
    }
  }

  lemma ApartIsKept(before: Bytes, src: Address, newProc: Address, buf: Address, k: nat, a: nat, ins: Bytes)
    requires OldMoment(before, src, newProc, buf, k) && InstructionAt(before, a) == Some(ins)
    requires Padded(before, src) ==> Apart(a, |ins|, src - 5, 5) && Apart(a, |ins|, buf, 16)
    ensures KeptAt(before, src, newProc, buf, k, a)
  {
    hide HotPatched, PatchMoments, InstructionAt, IsInstruction, Padded;
    OldUntilFinal(before, src, newProc, buf, k);
    if Padded(before, src) {
      SameFetch(before, PatchMoments(before, src, newProc, buf)[k].memory, a, ins);
    }
  }

  /** The instruction at an address is the same at all moments of all patches but the last exactly if it
      shares no byte with the padding. */
  lemma AddressIsSafeIff(before: Bytes, src: Address, buf: Address, a: nat, ins: Bytes)
    requires Patchable(before, src, 1, buf) && Padded(before, src)
    requires InstructionAt(before, a) == Some(ins) && Apart(a, |ins|, buf, 16)
    ensures NeverHalfWritten(before, src, buf, a) <==> Apart(a, |ins|, src - 5, 5)
  {
    hide HotPatched, PatchMoments, InstructionAt, IsInstruction, Padded, OldMoment, KeptAt;
    if Apart(a, |ins|, src - 5, 5) {
      forall newProc: Address, k: nat | OldMoment(before, src, newProc, buf, k) ensures KeptAt(before, src, newProc, buf, k, a) {
        ApartIsKept(before, src, newProc, buf, k, a, ins);
      }
    } else {
      var newProc, k := SharedByteChanges(before, src, buf, a, ins);
    }
  }

  // ----------------------------------------------------------------------------------------------
  // Whole runs

  /** None of the instructions is fetched from the buffer, which nobody uses yet. */
  predicate AvoidsBuffer<D>(mc: Machine<D>, before: Bytes, src: nat, buf: nat, c: Cpu<D>, n: nat)
    requires Window(before, src)
    decreases n
  {
    n > 0 && InstructionAt(before, c.pc).Some? ==>
      && (Padded(before, src) ==> Apart(c.pc, |InstructionAt(before, c.pc).value|, buf, 16))
      && AvoidsBuffer(mc, before, src, buf, Next(mc, before, c).value, n - 1)
  }

  /** At every old moment of every patch, the n instructions are what they were before. */
  ghost predicate RunNeverHalfWritten<D>(mc: Machine<D>, before: Bytes, src: Address, buf: Address, c: Cpu<D>, n: nat) {
    forall newProc: Address, k: nat :: OldMoment(before, src, newProc, buf, k) ==>
      UntouchedAt(mc, before, src, newProc, buf, k, c, n)
  }

  predicate UntouchedAt<D>(
    mc: Machine<D>, before: Bytes, src: Address, newProc: Address, buf: Address, k: nat, c: Cpu<D>, n: nat)
    requires OldMoment(before, src, newProc, buf, k)
  {
    Untouched(mc, before, PatchMoments(before, src, newProc, buf)[k].memory, c, n)
  }

  lemma AnOldMoment(before: Bytes, src: Address, buf: Address) returns (newProc: Address)
    requires Patchable(before, src, 1, buf)
    ensures OldMoment(before, src, newProc, buf, 0)
  {
    hide SizeOf, Published, FirstMoved, MoveMoments, PublishMoments;
    newProc := 1;
    MomentCounts(before, src, buf, before, src + 2, newProc);
    MomentCounts(before, src, buf, FirstMoved(before, src, buf), buf, newProc);
  }

  lemma NoInstruction<D>(mc: Machine<D>, before: Bytes, src: Address, buf: Address, c: Cpu<D>, n: nat)
    requires Patchable(before, src, 1, buf) && InstructionAt(before, c.pc).None? && n > 0
    ensures !RunNeverHalfWritten(mc, before, src, buf, c, n)
  {
    hide HotPatched, PatchMoments, InstructionAt, Patchable, OldMoment;
    var newProc := AnOldMoment(before, src, buf);
    assert !UntouchedAt(mc, before, src, newProc, buf, 0, c, n);
  }

  lemma UntouchedStep<D>(
    mc: Machine<D>, before: Bytes, src: Address, newProc: Address, buf: Address, k: nat, c: Cpu<D>, c': Cpu<D>, n: nat)
    requires OldMoment(before, src, newProc, buf, k) && Next(mc, before, c) == Some(c')
    ensures UntouchedAt(mc, before, src, newProc, buf, k, c, n + 1)
      <==> KeptAt(before, src, newProc, buf, k, c.pc) && UntouchedAt(mc, before, src, newProc, buf, k, c', n)
  {
    hide HotPatched, PatchMoments, InstructionAt, IsInstruction, Run, Landing, Patchable;
  }

  lemma RunStep<D>(mc: Machine<D>, before: Bytes, src: Address, buf: Address, c: Cpu<D>, c': Cpu<D>, n: nat)
    requires Next(mc, before, c) == Some(c')
    ensures RunNeverHalfWritten(mc, before, src, buf, c, n + 1)
      <==> NeverHalfWritten(before, src, buf, c.pc) && RunNeverHalfWritten(mc, before, src, buf, c', n)
  {
    hide OldMoment, KeptAt, UntouchedAt, Next;
    forall newProc: Address, k: nat | OldMoment(before, src, newProc, buf, k)
      ensures UntouchedAt(mc, before, src, newProc, buf, k, c, n + 1)
        <==> KeptAt(before, src, newProc, buf, k, c.pc) && UntouchedAt(mc, before, src, newProc, buf, k, c', n)
    {
      UntouchedStep(mc, before, src, newProc, buf, k, c, c', n);
    }
  }

  lemma UnpaddedIsSafe(before: Bytes, src: Address, buf: Address, a: nat, ins: Bytes)
    requires Patchable(before, src, 1, buf) && !Padded(before, src) && InstructionAt(before, a) == Some(ins)
    ensures NeverHalfWritten(before, src, buf, a)
  {
    hide HotPatched, PatchMoments, InstructionAt, IsInstruction, Padded, OldMoment, KeptAt, Patchable;
    forall newProc: Address, k: nat | OldMoment(before, src, newProc, buf, k) ensures KeptAt(before, src, newProc, buf, k, a) {
      ApartIsKept(before, src, newProc, buf, k, a, ins);
    }
  }

  /** Any number of instructions from any place, none from the buffer: they are the same at all moments of
      all patches but the last exactly if none is fetched from the padding. */
  lemma {:induction false} PublicationIsSafe<D>(mc: Machine<D>, before: Bytes, src: Address, buf: Address, c: Cpu<D>, n: nat)
    requires Patchable(before, src, 1, buf) && AvoidsBuffer(mc, before, src, buf, c, n)
    ensures RunNeverHalfWritten(mc, before, src, buf, c, n) <==> Avoids(mc, before, src, buf, c, n)
    decreases n
  {
    hide HotPatched, InstructionAt, Run, IsInstruction, Padded, Next, RunNeverHalfWritten, NeverHalfWritten;
    if n == 0 {
      NothingFetched(mc, before, src, buf, c);
    } else if InstructionAt(before, c.pc).None? {
      NoInstruction(mc, before, src, buf, c, n);
    } else {
      var ins := InstructionAt(before, c.pc).value;
      var c' := NextOf(mc, before, c);
      RunStep(mc, before, src, buf, c, c', n - 1);
      if Padded(before, src) {
        AddressIsSafeIff(before, src, buf, c.pc, ins);
      } else {
        UnpaddedIsSafe(before, src, buf, c.pc, ins);
      }
      PublicationIsSafe(mc, before, src, buf, c', n - 1);
    }
  }

  lemma NothingFetched<D>(mc: Machine<D>, before: Bytes, src: Address, buf: Address, c: Cpu<D>)
    ensures RunNeverHalfWritten(mc, before, src, buf, c, 0)
  {
    hide OldMoment, PatchMoments, InstructionAt;
  }

  // ----------------------------------------------------------------------------------------------
  // The first instruction

  /** Where the relative branch at the start of a procedure goes. */
  function FirstTarget(src: nat, ins: Bytes): Address
    requires |ins| == 2
  {
    Wrap(src + 2 + Signed8(ins[1]))
  }

  lemma FirstTargetRuns<D>(mc: Machine<D>, m: Bytes, src: Address, ins: Bytes, data: D)
    requires InstructionAt(m, src) == Some(ins) && |ins| == 2 && IsRelative(ins) && mc.sem.taken(ins[..1], data)
    ensures Next(mc, m, Cpu(src, data)).Some? && Next(mc, m, Cpu(src, data)).value.pc == FirstTarget(src, ins)
  {
    hide CodeFlags, SizeOf, IsInstruction, IsRelative, KeyLength, IsCall, Wrap, Signed8, InstructionAt, Cuts;
    TwoByteBranch(ins);
    assert ins[1..] == [ins[1]];
    WrapAdds(Signed8(ins[1]), src + 2);
  }

  /** A short branch with one of the displacements F9 to FD. */
  predicate IntoPadding(ins: Bytes)
    requires |ins| == 2
  {
    0xF9 <= ins[1] <= 0xFD
  }

  lemma PaddingTargets(src: Address, ins: Bytes)
    requires |ins| == 2 && 5 <= src && src + 5 <= SPACE
    ensures src - 5 <= FirstTarget(src, ins) < src <==> IntoPadding(ins)
  {
    var t := src + 2 + Signed8(ins[1]);
    if t < 0 {
      WrapShift(t, 1);
    } else if t >= SPACE {
      WrapShift(t, -1);
    }
  }

  /** What can be told before the call about a first branch: whether the instruction at its target shares a
      byte with the padding. */
  predicate ClearOfPadding(before: Bytes, src: nat, a: nat)
    requires 5 <= src
  {
    InstructionAt(before, a).Some? && Apart(a, |InstructionAt(before, a).value|, src - 5, 5)
  }

  /** A padded procedure whose first instruction is a branch that is taken: its first two instructions are the
      same at all moments of all patches but the last exactly if the one at the branch's target shares no
      byte with the padding.  Displacements F9 to FD always lead into it. */
  lemma ConditionOnFirstBranch<D>(mc: Machine<D>, before: Bytes, src: Address, buf: Address, ins: Bytes, data: D)
    requires Patchable(before, src, 1, buf) && Padded(before, src)
    requires InstructionAt(before, src) == Some(ins) && |ins| == 2 && IsRelative(ins) && mc.sem.taken(ins[..1], data)
    requires AvoidsBuffer(mc, before, src, buf, Cpu(src, data), 2)
    ensures Next(mc, before, Cpu(src, data)).Some? && Next(mc, before, Cpu(src, data)).value.pc == FirstTarget(src, ins)
    ensures RunNeverHalfWritten(mc, before, src, buf, Cpu(src, data), 2)
      <==> ClearOfPadding(before, src, FirstTarget(src, ins))
    ensures IntoPadding(ins) ==> !ClearOfPadding(before, src, FirstTarget(src, ins))
  {
    hide HotPatched, InstructionAt, IsInstruction, Padded, FirstTarget, IsRelative, Next, RunNeverHalfWritten, IntoPadding;
    FirstTargetRuns(mc, before, src, ins, data);
    PaddingTargets(src, ins);
    PublicationIsSafe(mc, before, src, buf, Cpu(src, data), 2);
    var c := Next(mc, before, Cpu(src, data)).value;
    TwoFetches(mc, before, src, buf, Cpu(src, data), c);
  }

  lemma TwoFetches<D>(mc: Machine<D>, before: Bytes, src: Address, buf: Address, c: Cpu<D>, c': Cpu<D>)
    requires Patchable(before, src, 1, buf) && Padded(before, src) && c.pc == src && Next(mc, before, c) == Some(c')
    requires AvoidsBuffer(mc, before, src, buf, c, 2)
    ensures Avoids(mc, before, src, buf, c, 2) <==> ClearOfPadding(before, src, c'.pc)
  {
    hide HotPatched, InstructionAt, IsInstruction, Run, Landing;
    assert Avoids(mc, before, src, buf, c', 1) <==> ClearOfPadding(before, src, c'.pc) by {
      if InstructionAt(before, c'.pc).Some? {
        assert AvoidsBuffer(mc, before, src, buf, c', 1);
      }
    }
  }

  /** For example EB FA behind five NOPs: before the patch the second instruction is NOP, and between the
      writes it is RET, if the displacement of the new jump ends in C3. */
  lemma ReturnInPadding(before: Bytes, src: Address, newProc: Address, buf: Address) returns (k: nat)
    requires Patchable(before, src, newProc, buf)
    requires before[src - 5..src] == NOPS && before[src..src + 2] == [0xEB, 0xFA] && Jump(src - 5, newProc)[1] == 0xC3
    ensures JumpTarget(before, src) == Some(src - 4) && InstructionAt(before, src - 4) == Some([0x90])
    ensures k + 1 < |PatchMoments(before, src, newProc, buf)|
    ensures InstructionAt(PatchMoments(before, src, newProc, buf)[k].memory, src - 4) == Some([0xC3])
  {
    hide HotPatched, PatchMoments, InstructionAt, IsInstruction, Jump, JumpTarget;
    k := HalfWritten(before, src, newProc, buf);
    PaddingByte(before, src, src - 4);
    assert before[src - 4] == before[src - 5..src][1];
    ShortBackSix(before, src);
    ReturnDecodes();
    var m := PatchMoments(before, src, newProc, buf)[k].memory;
    ByteIs(m, src - 5, src - 4, src, 0xC3);
    FoundAt(m, src - 4, [0xC3]);
  }

  lemma ShortBackSix(m: Bytes, src: nat)
    requires Window(m, src) && src < SPACE && m[src..src + 2] == [0xEB, 0xFA]
    ensures JumpTarget(m, src) == Some(src - 4)
  {
    assert m[src] == m[src..src + 2][0] && m[src + 1] == m[src..src + 2][1];
  }

  lemma ByteIs(m: Bytes, lo: nat, a: nat, hi: nat, b: Byte)
    requires lo <= a < hi <= |m| && m[lo..hi][a - lo] == b
    ensures m[a..a + 1] == [b]
  {
  }

  lemma ReturnFlags()
    ensures CodeFlags(0xC3) == 0
  {
  }

  lemma ReturnDecodes()
    ensures IsInstruction([0xC3])
  {
    hide CodeFlags;
    ReturnFlags();
    var ret: Bytes := [0xC3];
    assert ret[0..] == ret;
    assert PrefixCount(ret) == Some(0);
  }

  lemma AddFlags()
    ensures CodeFlags(0x04) == OP_DATA_I8
  {
  }

  lemma AddDecodes(b: Byte)
    ensures IsInstruction([0x04, b])
  {
    hide CodeFlags;
    AddFlags();
    var add := [0x04, b];
    assert add[0..] == add;
    assert PrefixCount(add) == Some(0);
  }

  /** For example EB F8 with 04 in front of the padding: the branch leads to an ADD whose operand is the first
      padding byte. */
  lemma OperandInPadding(before: Bytes, src: Address, buf: Address)
    requires Patchable(before, src, 1, buf) && Padded(before, src) && 6 <= src
    requires before[src..src + 2] == [0xEB, 0xF8] && before[src - 6] == 0x04
    ensures JumpTarget(before, src) == Some(src - 6) && InstructionAt(before, src - 6) == Some([0x04, before[src - 5]])
    ensures !NeverHalfWritten(before, src, buf, src - 6)
  {
    hide HotPatched, PatchMoments, InstructionAt, IsInstruction, Padded, NeverHalfWritten, OldMoment, KeptAt;
    var a, add := src - 6, [0x04, before[src - 5]];
    assert before[src] == before[src..src + 2][0] && before[src + 1] == before[src..src + 2][1];
    AddDecodes(before[src - 5]);
    assert before[a..a + 2] == add;
    FoundAt(before, a, add);
    var newProc, k := SharedByteChanges(before, src, buf, a, add);
    NotKept(before, src, newProc, buf, k, a);
  }

  lemma NotKept(before: Bytes, src: Address, newProc: Address, buf: Address, k: nat, a: nat)
    requires OldMoment(before, src, newProc, buf, k) && !KeptAt(before, src, newProc, buf, k, a)
    ensures !NeverHalfWritten(before, src, buf, a)
  {
    hide OldMoment, KeptAt;
  }

  /** And the branch need not be the first instruction: 8B FF EB F7 reaches the padding with its second. */
  lemma SecondBranchIntoPadding<D(!new)>(mc: Machine<D>, before: Bytes, src: Address, buf: Address, data: D)
    requires Patchable(before, src, 1, buf) && Padded(before, src) && JumpsArePlain(mc.sem) && src + 7 <= SPACE
    requires before[src..src + 2] == MOV_EDI_EDI && before[src + 2..src + 4] == [0xEB, 0xF7]
    requires mc.sem.effect(MOV_EDI_EDI, data) == data && mc.sem.control(MOV_EDI_EDI, data) == Stays
    ensures Execute(mc, before, Cpu(src, data), 2) == Some(Cpu(src - 5, data))
    ensures !RunNeverHalfWritten(mc, before, src, buf, Cpu(src, data), 3)
  {
    hide HotPatched, InstructionAt, IsInstruction, Padded, Next, RunNeverHalfWritten, NeverHalfWritten, JumpsArePlain, PatchMoments;
    MovRuns(mc, before, src, data);
    assert before[src + 2] == before[src + 2..src + 4][0] && before[src + 3] == before[src + 2..src + 4][1];
    BackSeven(before, src);
    JumpTargetRuns(mc, before, src + 2, data);
    Unroll(mc, before, Cpu(src, data), Cpu(src + 2, data), Cpu(src - 5, data));
    PaddingByte(before, src, src - 5);
    var c := NextOf(mc, before, Cpu(src - 5, data));
    RunStep(mc, before, src, buf, Cpu(src, data), Cpu(src + 2, data), 2);
    RunStep(mc, before, src, buf, Cpu(src + 2, data), Cpu(src - 5, data), 1);
    RunStep(mc, before, src, buf, Cpu(src - 5, data), c, 0);
    var newProc, k := SharedByteChanges(before, src, buf, src - 5, [before[src - 5]]);
    NotKept(before, src, newProc, buf, k, src - 5);
  }

  lemma BackSeven(m: Bytes, src: Address)
    requires Window(m, src) && src + 7 <= |m| <= SPACE && m[src + 2] == 0xEB && m[src + 3] == 0xF7
    ensures JumpTarget(m, src + 2) == Some(src - 5)
  {
  }

  lemma MovRuns<D>(mc: Machine<D>, m: Bytes, a: Address, data: D)
    requires a + 2 <= |m| && a + 2 < SPACE && m[a..a + 2] == MOV_EDI_EDI
    requires mc.sem.effect(MOV_EDI_EDI, data) == data && mc.sem.control(MOV_EDI_EDI, data) == Stays
    ensures Next(mc, m, Cpu(a, data)) == Some(Cpu(a + 2, data))
  {
    MovDecodes();
    hide SizeOf, CodeFlags, IsRelative, IsInstruction, InstructionAt, IsCall;
    FoundAt(m, a, MOV_EDI_EDI);
    WordIsWrapped(a + 2);
  }
}
