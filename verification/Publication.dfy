/** Threads that run through a procedure while it is being hot patched.  Between any two of their
    instructions any number of the patch's writes may take place. */
module Publication {
  import opened Words
  import opened OpcodeTable
  import opened Ldasm
  import opened Memory
  import opened Trampoline
  import opened Machines
  import opened Jumps
  import opened CodeHook
  import opened HookChain

  // ----------------------------------------------------------------------------------------------
  // The moments of a patch

  /** Nothing has changed yet but the padding and the buffer; and not even these for a procedure that was
      patched before. */
  predicate StillOld(before: Bytes, now: Bytes, src: nat, buf: nat)
    requires Window(before, src)
  {
    && |now| == |before|
    && (forall a :: 0 <= a < |before| && !(src - 5 <= a < src) && !(buf <= a < buf + 16) ==> now[a] == before[a])
    && (Padded(before, src) || now == before)
  }

  lemma WriteStaysOld(before: Bytes, now: Bytes, src: nat, buf: nat, a: nat, b: Bytes)
    requires Window(before, src) && StillOld(before, now, src, buf) && Padded(before, src) && a + |b| <= |before|
    requires (buf <= a && a + |b| <= buf + 16) || (src - 5 <= a && a + |b| <= src)
    ensures StillOld(before, Write(now, a, b), src, buf)
  {
    hide Padded;
  }

  lemma MovingIsOld(before: Bytes, src: nat, buf: Address, k: nat)
    requires Window(before, src) && Padded(before, src) && buf + 16 <= |before| && k < 4
    ensures StillOld(before, MoveMoments(before, src, buf)[k].memory, src, buf)
  {
    hide Padded, Write, Jump, StillOld;
    var two := before[src..src + 2];
    var copied := Write(before, buf, two);
    ItselfIsOld(before, src, buf);
    WriteStaysOld(before, before, src, buf, buf, two);
    WriteStaysOld(before, copied, src, buf, buf + 2, [0xE9]);
    WriteStaysOld(before, before, src, buf, buf, two + Jump(buf + 2, src + 2));
  }

  lemma ItselfIsOld(before: Bytes, src: nat, buf: nat)
    requires Window(before, src)
    ensures StillOld(before, before, src, buf)
  {
  }

  lemma PublishingIsOld(before: Bytes, now: Bytes, oldProc: Address, src: nat, newProc: nat, buf: nat, k: nat)
    requires Window(before, src) && Padded(before, src) && StillOld(before, now, src, buf) && Window(now, src) && k < 2
    ensures StillOld(before, PublishMoments(now, oldProc, src, newProc)[k].memory, src, buf)
  {
    hide Padded, Write, Jump, StillOld;
    WriteStaysOld(before, now, src, buf, src - 5, [0xE9]);
    WriteStaysOld(before, now, src, buf, src - 5, Jump(src - 5, newProc));
  }

  /** Every moment but the last is old, and the last is the finished patch, with the caller's old-procedure
      pointer in place. */
  lemma OldUntilFinal(before: Bytes, src: Address, newProc: Address, buf: Address, k: nat)
    requires IsMemory(before) && Window(before, src) && buf + 16 <= |before|
    requires HotPatched(before, src, newProc, buf).Hooked? && k < |PatchMoments(before, src, newProc, buf)|
    ensures var r, p := HotPatched(before, src, newProc, buf), PatchMoments(before, src, newProc, buf);
      if k == |p| - 1 then p[k] == Moment(r.memory, r.hook.oldProc) else StillOld(before, p[k].memory, src, buf)
  {
    hide SizeOf, Jump, Write, Bytes32, Word32, Wrap, StillOld, Published, FirstMoved, MoveMoments, PublishMoments;
    ItselfIsOld(before, src, buf);
    if Padded(before, src) {
      if before[src..src + 2] == MOV_EDI_EDI {
        MomentCounts(before, src, buf, before, src + 2, newProc);
        if 1 <= k < 3 {
          PublishingIsOld(before, before, src + 2, src, newProc, buf, k - 1);
        }
      } else {
        MomentCounts(before, src, buf, FirstMoved(before, src, buf), buf, newProc);
        MovingIsOld(before, src, buf, if k < 4 then k else 3);
        if 4 <= k < 6 {
          PublishingIsOld(before, FirstMoved(before, src, buf), buf, src, newProc, buf, k - 4);
        }
      }
    }
  }

  lemma MomentCounts(before: Bytes, src: nat, buf: Address, now: Bytes, oldProc: nat, newProc: nat)
    requires Window(before, src) && buf + 16 <= |before| && |now| == |before| && oldProc < SPACE
    ensures |MoveMoments(before, src, buf)| == 4
    ensures MoveMoments(before, src, buf)[3] == Moment(FirstMoved(before, src, buf), buf)
    ensures |PublishMoments(now, oldProc, src, newProc)| == 3
    ensures PublishMoments(now, oldProc, src, newProc)[2] == Moment(Published(now, src, newProc), oldProc)
  {
    hide Jump, Write, Published, FirstMoved;
  }

  // ----------------------------------------------------------------------------------------------
  // One instruction

  /** Where the old code and the new hook part: the procedure's start, or the jump in its padding. */
  function Gate(before: Bytes, src: nat): nat
    requires Window(before, src)
  {
    if Padded(before, src) then src else src - 5
  }

  /** Bytes that no write of the patch touches. */
  predicate Clear(before: Bytes, src: nat, buf: nat, a: nat, size: nat)
    requires Window(before, src)
  {
    if Padded(before, src) then Apart(a, size, src - 5, 7) && Apart(a, size, buf, 16) else Apart(a, size, src - 5, 5)
  }

  lemma SameFetch(before: Bytes, now: Bytes, a: nat, ins: Bytes)
    requires InstructionAt(before, a) == Some(ins) && |now| == |before|
    requires forall i :: a <= i < a + |ins| ==> now[i] == before[i]
    ensures InstructionAt(now, a) == Some(ins)
  {
    hide InstructionAt, IsInstruction;
    assert now[a..a + |ins|] == before[a..a + |ins|];
    FoundAt(now, a, ins);
  }

  /** The first instruction of a padded procedure that is hot patched has two bytes. */
  lemma FirstIsShort(before: Bytes, src: Address, newProc: Address, buf: Address) returns (ins: Bytes)
    requires IsMemory(before) && Window(before, src) && buf + 16 <= |before| && Padded(before, src)
    requires HotPatched(before, src, newProc, buf).Hooked?
    ensures InstructionAt(before, src) == Some(ins) && |ins| == 2
  {
    if before[src..src + 2] == MOV_EDI_EDI {
      MovDecodes();
      hide SizeOf, CodeFlags, InstructionAt, IsInstruction, Published, FirstMoved;
      FoundAt(before, src, MOV_EDI_EDI);
      ins := MOV_EDI_EDI;
    } else {
      hide SizeOf, CodeFlags, IsInstruction, Published, FirstMoved;
      ins := before[src..][..2];
    }
  }

  lemma MovFlags()
    ensures CodeFlags(0x8B) == OP_MODRM
  {
  }

  lemma MovDecodes()
    ensures IsInstruction(MOV_EDI_EDI) && !IsRelative(MOV_EDI_EDI)
  {
    hide CodeFlags;
    MovFlags();
    assert MOV_EDI_EDI[0..] == MOV_EDI_EDI;
    assert PrefixCount(MOV_EDI_EDI) == Some(0);
  }

  /** At an old moment a thread at the gate, or clear of the patch, executes what it would have. */
  lemma OldFetch(before: Bytes, now: Bytes, src: Address, newProc: Address, buf: Address, a: nat, ins: Bytes)
    requires IsMemory(before) && Window(before, src) && buf + 16 <= |before| && Apart(buf, 16, src - 5, 10)
    requires HotPatched(before, src, newProc, buf).Hooked? && StillOld(before, now, src, buf)
    requires InstructionAt(before, a) == Some(ins) && (a == Gate(before, src) || Clear(before, src, buf, a, |ins|))
    ensures InstructionAt(now, a) == Some(ins)
  {
    hide SizeOf, CodeFlags, InstructionAt, IsInstruction, HotPatched, Padded;
    if Padded(before, src) {
      var first := FirstIsShort(before, src, newProc, buf);
      SameFetch(before, now, a, ins);
    }
  }

  /** When the patch is finished a thread clear of it still does. */
  lemma FinalFetch(before: Bytes, src: Address, newProc: Address, buf: Address, a: nat, ins: Bytes)
    requires IsMemory(before) && Window(before, src) && buf + 16 <= |before| && Apart(buf, 16, src - 5, 10)
    requires HotPatched(before, src, newProc, buf).Hooked?
    requires InstructionAt(before, a) == Some(ins) && Clear(before, src, buf, a, |ins|)
    ensures InstructionAt(HotPatched(before, src, newProc, buf).memory, a) == Some(ins)
  {
    hide SizeOf, CodeFlags, InstructionAt, IsInstruction, Bytes32, Word32, Wrap, Jump, Padded;
    SameFetch(before, HotPatched(before, src, newProc, buf).memory, a, ins);
  }

  lemma ShortBackGoes(m: Bytes, src: nat, newProc: Address)
    requires Window(m, src) && m[src - 5..src] == Jump(src - 5, newProc) && m[src..src + 2] == SHORT_BACK
    ensures Entered(m, src) == Some(newProc) && JumpTarget(m, src - 5) == Some(newProc)
    ensures src < SPACE ==> JumpTarget(m, src) == Some(src - 5)
  {
    hide Jump, Word32;
    JumpGoes(m, src - 5, newProc);
    assert m[src] == m[src..src + 2][0] && m[src + 1] == m[src..src + 2][1];
  }

  lemma FinalBytes(before: Bytes, src: Address, newProc: Address, buf: Address)
    requires IsMemory(before) && Window(before, src) && buf + 16 <= |before|
    requires HotPatched(before, src, newProc, buf).Hooked?
    ensures var after := HotPatched(before, src, newProc, buf).memory;
      && after[src - 5..src] == Jump(src - 5, newProc) && after[src..src + 2] == SHORT_BACK
  {
    hide Jump, SizeOf, Published, FirstMoved, Bytes32, Word32, Wrap;
    var after := HotPatched(before, src, newProc, buf).memory;
    if Padded(before, src) {
      PublishedBytes(before, src, newProc);
      PublishedBytes(FirstMoved(before, src, buf), src, newProc);
    } else {
      RedirectedBytes(before, src, newProc);
      AgreeWithin(before, after, src, src + 5, src, src + 2);
    }
  }

  /** When the patch is finished, a thread at the gate reaches the new hook with its data unchanged. */
  lemma FinalArrives<D(!new)>(mc: Machine<D>, before: Bytes, src: Address, newProc: Address, buf: Address, data: D)
    requires IsMemory(before) && Window(before, src) && buf + 16 <= |before| && JumpsArePlain(mc.sem)
    requires HotPatched(before, src, newProc, buf).Hooked?
    ensures var after := HotPatched(before, src, newProc, buf).memory;
      && Entered(after, src) == Some(newProc)
      && Execute(mc, after, Cpu(Gate(before, src), data), if Padded(before, src) then 2 else 1) == Some(Cpu(newProc, data))
  {
    hide HotPatched, Padded, Jump, JumpTarget, Next, JumpsArePlain, Entered;
    var after := HotPatched(before, src, newProc, buf).memory;
    FinalBytes(before, src, newProc, buf);
    ShortBackGoes(after, src, newProc);
    JumpTargetRuns(mc, after, src, data);
    JumpTargetRuns(mc, after, src - 5, data);
    Unroll(mc, after, Cpu(src, data), Cpu(src - 5, data), Cpu(newProc, data));
  }

  lemma Unroll<D>(mc: Machine<D>, m: Bytes, a: Cpu<D>, b: Cpu<D>, c: Cpu<D>)
    requires Next(mc, m, a) == Some(b) && Next(mc, m, b) == Some(c)
    ensures Execute(mc, m, a, 2) == Some(c) && Execute(mc, m, b, 1) == Some(c)
  {
    hide Next;
    assert Execute(mc, m, c, 0) == Some(c);
  }

  // ----------------------------------------------------------------------------------------------
  // A run that overlaps the patch

  /** The instructions of the unpatched procedure that a thread fetches at these times are each at the gate or
      clear of the patch, until it is at the gate of the finished patch. */
  predicate Clean<D>(mc: Machine<D>, before: Bytes, src: nat, buf: nat, c: Cpu<D>, times: seq<nat>, last: nat)
    requires Window(before, src)
    decreases |times|
  {
    times == [] || (times[0] == last && c.pc == Gate(before, src)) || (
      && InstructionAt(before, c.pc).Some?
      && (c.pc == Gate(before, src) || Clear(before, src, buf, c.pc, |InstructionAt(before, c.pc).value|))
      && Clean(mc, before, src, buf, Next(mc, before, c).value, times[1..], last))
  }

  /** A run whose i-th instruction is fetched from the i-th of these memories. */
  function ExecuteOver<D>(mc: Machine<D>, ms: seq<Bytes>, c: Cpu<D>): Option<Cpu<D>>
    decreases |ms|
  {
    if ms == [] then Some(c)
    else match Next(mc, ms[0], c)
      case None => None
      case Some(c') => ExecuteOver(mc, ms[1..], c')
  }

  /** The memory after the first `t` writes of the patch. */
  function MemoryAt(before: Bytes, moments: seq<Moment>, t: nat): Bytes
    requires t <= |moments|
  {
    if t == 0 then before else moments[t - 1].memory
  }

  /** How many writes have been made when each instruction is fetched: never fewer than before. */
  predicate Schedule(times: seq<nat>, last: nat) {
    (forall i :: 0 <= i < |times| ==> times[i] <= last) && forall i, j :: 0 <= i < j < |times| ==> times[i] <= times[j]
  }

  function MemoriesAt(before: Bytes, moments: seq<Moment>, times: seq<nat>): (ms: seq<Bytes>)
    requires Schedule(times, |moments|)
    ensures |ms| == |times|
  {
    seq(|times|, i requires 0 <= i < |times| => MemoryAt(before, moments, times[i]))
  }

  /** What the theorems below are about: a hot patch that succeeds, with a buffer elsewhere. */
  predicate Patchable(before: Bytes, src: Address, newProc: Address, buf: Address) {
    && IsMemory(before) && Window(before, src) && buf + 16 <= |before| && Apart(buf, 16, src - 5, 10)
    && HotPatched(before, src, newProc, buf).Hooked?
  }

  /** While a thread is clear of the patch, or at the gate of an unfinished one, it executes what it would
      have. */
  lemma FetchedAt(before: Bytes, src: Address, newProc: Address, buf: Address, t: nat, a: nat, ins: Bytes)
    requires Patchable(before, src, newProc, buf) && t <= |PatchMoments(before, src, newProc, buf)|
    requires InstructionAt(before, a) == Some(ins)
    requires Clear(before, src, buf, a, |ins|) || (a == Gate(before, src) && t < |PatchMoments(before, src, newProc, buf)|)
    ensures InstructionAt(MemoryAt(before, PatchMoments(before, src, newProc, buf), t), a) == Some(ins)
  {
    hide HotPatched, PatchMoments, StillOld, InstructionAt, IsInstruction, Clear, Gate;
    if t > 0 {
      OldUntilFinal(before, src, newProc, buf, t - 1);
      if t < |PatchMoments(before, src, newProc, buf)| {
        OldFetch(before, PatchMoments(before, src, newProc, buf)[t - 1].memory, src, newProc, buf, a, ins);
      } else {
        FinalFetch(before, src, newProc, buf, a, ins);
      }
    }
  }

  lemma ScheduleGoesOn(before: Bytes, moments: seq<Moment>, times: seq<nat>, j: nat)
    requires Schedule(times, |moments|) && times != [] && j < |times|
    ensures Schedule(times[1..], |moments|)
    ensures MemoriesAt(before, moments, times)[..j + 1] ==
      [MemoryAt(before, moments, times[0])] + MemoriesAt(before, moments, times[1..])[..j]
  {
    hide MemoryAt;
  }

  lemma OverStep<D>(mc: Machine<D>, m: Bytes, ms: seq<Bytes>, c: Cpu<D>, c': Cpu<D>)
    requires Next(mc, m, c) == Some(c')
    ensures ExecuteOver(mc, [m] + ms, c) == ExecuteOver(mc, ms, c')
  {
    hide Next;
    assert ([m] + ms)[1..] == ms;
  }

  lemma SameNext<D>(mc: Machine<D>, m: Bytes, m': Bytes, c: Cpu<D>)
    requires InstructionAt(m', c.pc) == InstructionAt(m, c.pc)
    ensures Next(mc, m', c) == Next(mc, m, c)
  {
    hide InstructionAt, Run, IsInstruction, Landing;
  }

  /** A thread anywhere in the old code, while the patch is being written under it: for j instructions it
      does what it would have done, and either these are all, or it is then at the gate, the patch and the
      old-procedure pointer are final, and it goes to the new hook with its data unchanged. */
  lemma {:induction false} RunsOldThenNew<D(!new)>(
    mc: Machine<D>, before: Bytes, src: Address, newProc: Address, buf: Address, times: seq<nat>, c: Cpu<D>) returns (j: nat)
    requires Patchable(before, src, newProc, buf) && JumpsArePlain(mc.sem)
    requires var last := |PatchMoments(before, src, newProc, buf)|;
      Schedule(times, last) && Clean(mc, before, src, buf, c, times, last)
    ensures j <= |times| && Execute(mc, before, c, j).Some?
    ensures ExecuteOver(mc, MemoriesAt(before, PatchMoments(before, src, newProc, buf), times)[..j], c)
      == Execute(mc, before, c, j)
    ensures j < |times| ==>
      var g, r, p := Execute(mc, before, c, j).value, HotPatched(before, src, newProc, buf), PatchMoments(before, src, newProc, buf);
      && g.pc == Gate(before, src)
      && (forall i :: j <= i < |times| ==> times[i] == |p|)
      && p[|p| - 1] == Moment(r.memory, r.hook.oldProc)
      && Execute(mc, r.memory, g, if Padded(before, src) then 2 else 1) == Some(Cpu(newProc, g.data))
    decreases |times|
  {
    hide HotPatched, PatchMoments, InstructionAt, IsInstruction, Clear, Gate, Next, MemoryAt, Padded, ExecuteOver, Run, JumpsArePlain,
      MemoriesAt;
    var p := PatchMoments(before, src, newProc, buf);
    if times == [] {
      j := 0;
      EmptyRun(mc, before, MemoriesAt(before, p, times), c);
    } else if times[0] == |p| && c.pc == Gate(before, src) {
      j := 0;
      EmptyRun(mc, before, MemoriesAt(before, p, times), c);
      LastMoment(before, src, newProc, buf);
      FinalArrives(mc, before, src, newProc, buf, c.data);
    } else {
      var now, ins := MemoryAt(before, p, times[0]), InstructionAt(before, c.pc).value;
      FetchedAt(before, src, newProc, buf, times[0], c.pc, ins);
      SameNext(mc, before, now, c);
      var c' := NextOf(mc, before, c);
      ScheduleGoesOn(before, p, times, 0);
      var k := RunsOldThenNew(mc, before, src, newProc, buf, times[1..], c');
      j := k + 1;
      ScheduleGoesOn(before, p, times, k);
      OverStep(mc, now, MemoriesAt(before, p, times[1..])[..k], c, c');
      OldStep(mc, before, c, c', k);
    }
  }

  lemma NextOf<D>(mc: Machine<D>, m: Bytes, c: Cpu<D>) returns (c': Cpu<D>)
    requires InstructionAt(m, c.pc).Some?
    ensures Next(mc, m, c) == Some(c')
  {
    hide InstructionAt, Run, IsInstruction, Landing;
    c' := Next(mc, m, c).value;
  }

  lemma OldStep<D>(mc: Machine<D>, m: Bytes, c: Cpu<D>, c': Cpu<D>, n: nat)
    requires Next(mc, m, c) == Some(c')
    ensures Execute(mc, m, c, n + 1) == Execute(mc, m, c', n)
  {
    hide Next;
  }

  lemma EmptyRun<D>(mc: Machine<D>, m: Bytes, ms: seq<Bytes>, c: Cpu<D>)
    ensures Execute(mc, m, c, 0) == Some(c) && ExecuteOver(mc, ms[..0], c) == Some(c)
  {
    hide Next;
  }

  lemma LastMoment(before: Bytes, src: Address, newProc: Address, buf: Address)
    requires Patchable(before, src, newProc, buf)
    ensures var r, p := HotPatched(before, src, newProc, buf), PatchMoments(before, src, newProc, buf);
      |p| > 0 && p[|p| - 1] == Moment(r.memory, r.hook.oldProc)
  {
    hide HotPatched, StillOld;
    OldUntilFinal(before, src, newProc, buf, |PatchMoments(before, src, newProc, buf)| - 1);
  }

  /** Entering a procedure really executes the jumps that Entered follows, and nothing else. */
  lemma EnteringRuns<D(!new)>(mc: Machine<D>, m: Bytes, t: Address, data: D)
    requires IsMemory(m) && Window(m, t) && Entered(m, t).Some? && JumpsArePlain(mc.sem)
    ensures Execute(mc, m, Cpu(t, data), if m[t..t + 2] == SHORT_BACK then 2 else 1) == Some(Cpu(Entered(m, t).value, data))
  {
    hide Next, JumpsArePlain;
    if m[t..t + 2] == SHORT_BACK {
      assert m[t] == m[t..t + 2][0] && m[t + 1] == m[t..t + 2][1];
      JumpTargetRuns(mc, m, t, data);
      JumpTargetRuns(mc, m, t - 5, data);
      Unroll(mc, m, Cpu(t, data), Cpu(t - 5, data), Cpu(Entered(m, t).value, data));
    } else {
      JumpTargetRuns(mc, m, t, data);
      OldStep(mc, m, Cpu(t, data), Cpu(Entered(m, t).value, data), 0);
    }
  }
}
