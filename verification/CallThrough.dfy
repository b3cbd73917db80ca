/** Calling the original through hook 1's old pointer, on a whole machine: any number of instructions,
    inside the moved code and beyond it. */
module CallThrough {
  import opened Words
  import opened OpcodeTable
  import opened Ldasm
  import opened Memory
  import opened Trampoline
  import opened Machines
  import opened CodeHook
  import opened HookChain
  import opened HookTheorems
  import opened Jumps
  import opened Publication

  /** The run in the original memory from `src + off` leaves the moved code by a jump or at its end, not by
      a call, and then meets none of the patched bytes, in particular not by a branch back into the moved
      code. */
  predicate StaysClear<D>(mc: Machine<D>, m: Bytes, m': Bytes, src: nat, len: nat, off: nat, data: D, n: nat)
    decreases n
  {
    n > 0 ==>
      InstructionAt(m, src + off).Some? &&
      var ins := InstructionAt(m, src + off).value;
      match Run(mc.sem, ins, src + off, data)
      case Falls(d) =>
        if off + |ins| < len then StaysClear(mc, m, m', src, len, off + |ins|, d, n - 1)
        else Untouched(mc, m, m', Cpu(Wrap(src + off + |ins|), d), n - 1)
      case Transfers(t, d) => Untouched(mc, m, m', Cpu(t, d), n - 1)
      case Calls(_, _, _) => false
  }

  /** The same place: in the code beyond, or in the moved code and its copy. */
  predicate SamePlace(pc: Address, pc': Address, src: nat, buf: nat, len: nat) {
    pc' == pc || (src <= pc < src + len && pc' == pc - src + buf)
  }

  /** What StaysClear says of the next instruction. */
  predicate ClearAfter<D>(
    mc: Machine<D>, m: Bytes, m': Bytes, src: nat, len: nat, next: nat, o: Outcome<D>, n: nat) {
    match o
    case Falls(d) =>
      if next < len then StaysClear(mc, m, m', src, len, next, d, n) else Untouched(mc, m, m', Cpu(Wrap(src + next), d), n)
    case Transfers(t, d) => Untouched(mc, m, m', Cpu(t, d), n)
    case Calls(_, _, _) => false
  }

  lemma ClearStep<D>(
    mc: Machine<D>, m: Bytes, m': Bytes, src: nat, len: nat, off: nat, data: D, n: nat, ins: Bytes)
    requires StaysClear(mc, m, m', src, len, off, data, n) && n > 0 && InstructionAt(m, src + off) == Some(ins)
    ensures ClearAfter(mc, m, m', src, len, off + |ins|, Run(mc.sem, ins, src + off, data), n - 1)
  {
    hide InstructionAt, Run, IsInstruction, Untouched, Wrap;
  }

  /** A jump out of the moved code. */
  lemma LeavesByJump<D>(
    mc: Machine<D>, m: Bytes, m': Bytes, pc: nat, pc': nat, ins: Bytes, moved: Bytes, data: D, n: nat, t: Address, d: D)
    requires pc < SPACE && pc' < SPACE && InstructionAt(m, pc) == Some(ins) && InstructionAt(m', pc') == Some(moved)
    requires Run(mc.sem, ins, pc, data) == Transfers(t, d) && Run(mc.sem, moved, pc', data) == Transfers(t, d)
    requires Untouched(mc, m, m', Cpu(t, d), n)
    ensures Execute(mc, m, Cpu(pc, data), n + 1).Some?
    ensures Execute(mc, m', Cpu(pc', data), n + 1) == Execute(mc, m, Cpu(pc, data), n + 1)
  {
    hide InstructionAt, Run, IsInstruction, Untouched, Execute;
    SameRun(mc, m, m', Cpu(t, d), n);
    ExecuteStep(mc, m, pc, data, ins, n);
    ExecuteStep(mc, m', pc', data, moved, n);
  }

  /** The end of the moved code, and the jump behind its copy. */
  lemma LeavesAtEnd<D(!new)>(
    mc: Machine<D>, m: Bytes, m': Bytes, src: nat, buf: nat, off: nat, ins: Bytes, moved: Bytes, data: D, n: nat, d: D)
    requires src + off < SPACE && buf + off + |ins| < SPACE && |moved| == |ins| && JumpIsPlain(mc.sem)
    requires InstructionAt(m, src + off) == Some(ins) && InstructionAt(m', buf + off) == Some(moved)
    requires Run(mc.sem, ins, src + off, data) == Falls(d) && Run(mc.sem, moved, buf + off, data) == Falls(d)
    requires var next := off + |ins|;
      && InstructionAt(m', buf + next) == Some(Jump(buf + next, src + next))
      && Untouched(mc, m, m', Cpu(Wrap(src + next), d), n)
    ensures Execute(mc, m, Cpu(src + off, data), n + 1).Some?
    ensures Execute(mc, m', Cpu(buf + off, data), n + 2) == Execute(mc, m, Cpu(src + off, data), n + 1)
  {
    hide InstructionAt, Run, IsInstruction, Untouched, Execute, Jump;
    var next := off + |ins|;
    SameRun(mc, m, m', Cpu(Wrap(src + next), d), n);
    ExecuteStep(mc, m, src + off, data, ins, n);
    ExecuteStep(mc, m', buf + off, data, moved, n + 1);
    JumpRuns(mc.sem, buf + next, src + next, d);
    ExecuteStep(mc, m', buf + next, d, Jump(buf + next, src + next), n);
  }

  /** Every number of instructions of the original is matched from the trampoline: the same data at the
      same place. */
  lemma {:induction false} CallsThrough<D(!new)>(
    mc: Machine<D>, m: Bytes, m': Bytes, src: nat, buf: nat, off: nat, data: D, n: nat) returns (k: nat)
    requires Placed(m, m', src, buf, off) && IsMemory(m) && IsMemory(m') && JumpIsPlain(mc.sem)
    requires var len := BuildFrom(m, src, buf, off).len;
      AllMoveFaithfully(m, src, buf, off, len) && StaysClear(mc, m, m', src, len, off, data, n)
    ensures src + off < SPACE && buf + off < SPACE
    ensures Execute(mc, m, Cpu(src + off, data), n).Some? && Execute(mc, m', Cpu(buf + off, data), k).Some?
    ensures var c, c' := Execute(mc, m, Cpu(src + off, data), n).value, Execute(mc, m', Cpu(buf + off, data), k).value;
      c'.data == c.data && SamePlace(c.pc, c'.pc, src, buf, BuildFrom(m, src, buf, off).len)
    decreases n
  {
    hide CodeFlags, SizeOf, IsInstruction, IsRelative, Accepted, Jump, InstructionAt, BuildFrom, Move, KeyLength,
      MovesFaithfully, Run, IsCall, Execute, StaysClear, Untouched;
    var ins, moved, len := PlacedTurn(m, m', src, buf, off);
    var next := off + |ins|;
    if n == 0 {
      k := 0;
      NoStep(mc, m, Cpu(src + off, data));
      NoStep(mc, m', Cpu(buf + off, data));
      return;
    }
    SameDistance(ins, src, buf, off);
    MovedRuns(mc.sem, ins, src + off, buf + off, data);
    ClearStep(mc, m, m', src, len, off, data, n, ins);
    match Run(mc.sem, ins, src + off, data)
    case Falls(d) =>
      if next < 5 {
        k := CallsThrough(mc, m, m', src, buf, next, d, n - 1);
        ExecuteStep(mc, m, src + off, data, ins, n - 1);
        ExecuteStep(mc, m', buf + off, data, moved, k);
        k := k + 1;
      } else {
        LeavesAtEnd(mc, m, m', src, buf, off, ins, moved, data, n - 1, d);
        k := n + 1;
      }
    case Transfers(t, d) =>
      LeavesByJump(mc, m, m', src + off, buf + off, ins, moved, data, n - 1, t, d);
      k := n;
    case Calls(_, _, _) =>
      assert false;
  }

  // ----------------------------------------------------------------------------------------------
  // The four kinds of first hook

  /** A procedure whose first instruction was moved into a buffer. */
  lemma MovedFirst<D(!new)>(mc: Machine<D>, original: Bytes, m: Bytes, h: HookDescriptor, data: D, n: nat) returns (k: nat)
    requires FirstIsOriginal(original, m, h) && h.kind == HotPatch && h.oldProc != h.src + 2
    requires IsMemory(original) && IsMemory(m) && JumpIsPlain(mc.sem)
    requires InstructionAt(original, h.src).Some? && !IsRelative(InstructionAt(original, h.src).value)
    requires StaysClear(mc, original, m, h.src, 2, 0, data, n)
    ensures Execute(mc, original, Cpu(h.src, data), n).Some? && Execute(mc, m, Cpu(h.oldProc, data), k).Some?
    ensures var c, c' := Execute(mc, original, Cpu(h.src, data), n).value, Execute(mc, m, Cpu(h.oldProc, data), k).value;
      c'.data == c.data && SamePlace(c.pc, c'.pc, h.src, h.oldProc, 2)
  {
    hide SizeOf, CodeFlags, IsRelative, IsInstruction, InstructionAt, Jump, Run, Execute, StaysClear, Untouched, CopiesFaithfully, IsCall,
      KeyLength;
    var t: nat, buf: nat := h.src, h.oldProc;
    var ins := FirstCopied(original, m, h);
    if n == 0 {
      k := 0;
      NoStep(mc, original, Cpu(t, data));
      NoStep(mc, m, Cpu(buf, data));
      return;
    }
    NotRelative(ins, t, buf);
    CopiedRuns(mc.sem, ins, t, buf, data);
    ClearStep(mc, original, m, t, 2, 0, data, n, ins);
    match Run(mc.sem, ins, t, data)
    case Falls(d) =>
      LeavesAtEnd(mc, original, m, t, buf, 0, ins, ins, data, n - 1, d);
      k := n + 1;
    case Transfers(t', d) =>
      LeavesByJump(mc, original, m, t, buf, ins, ins, data, n - 1, t', d);
      k := n;
    case Calls(_, _, _) =>
      assert false;
  }

  /** A procedure that begins with MOV EDI, EDI, which has no effect: the old pointer skips it. */
  lemma SkippedFirst<D(!new)>(mc: Machine<D>, original: Bytes, m: Bytes, h: HookDescriptor, data: D, n: nat)
    requires FirstIsOriginal(original, m, h) && h.kind == HotPatch && h.oldProc == h.src + 2 && IsMemory(original)
    requires mc.sem.effect(MOV_EDI_EDI, data) == data && mc.sem.control(MOV_EDI_EDI, data) == Stays
    requires n >= 1 && StaysClear(mc, original, m, h.src, 2, 0, data, n)
    ensures Execute(mc, original, Cpu(h.src, data), n).Some?
    ensures Execute(mc, m, Cpu(h.oldProc, data), n - 1) == Execute(mc, original, Cpu(h.src, data), n)
  {
    MovDecodes();
    hide SizeOf, CodeFlags, IsRelative, IsInstruction, InstructionAt, Execute, StaysClear, Untouched, IsCall;
    var t: nat := h.src;
    FoundAt(original, t, MOV_EDI_EDI);
    ClearStep(mc, original, m, t, 2, 0, data, n, MOV_EDI_EDI);
    SameRun(mc, original, m, Cpu(Wrap(t + 2), data), n - 1);
    ExecuteStep(mc, original, t, data, MOV_EDI_EDI, n - 1);
  }

  /** A procedure that was patched before: the old pointer is where its two jumps lead. */
  lemma ForeignFirst<D(!new)>(mc: Machine<D>, original: Bytes, m: Bytes, h: HookDescriptor, data: D, n: nat)
    requires FirstIsOriginal(original, m, h) && h.kind == DoubleHotPatch && IsMemory(original) && JumpsArePlain(mc.sem)
    requires n >= 2 && Untouched(mc, original, m, Cpu(h.oldProc, data), n - 2)
    ensures Execute(mc, original, Cpu(h.src, data), n).Some?
    ensures Execute(mc, m, Cpu(h.oldProc, data), n - 2) == Execute(mc, original, Cpu(h.src, data), n)
  {
    hide Next, JumpsArePlain, Untouched, Wrap;
    var t: Address := h.src;
    assert original[t] == original[t..t + 2][0] && original[t + 1] == original[t..t + 2][1];
    ShortBackTarget(original, t);
    JumpTargetRuns(mc, original, t, data);
    JumpTargetRuns(mc, original, t - 5, data);
    OldStep(mc, original, Cpu(t, data), Cpu(t - 5, data), n - 1);
    OldStep(mc, original, Cpu(t - 5, data), Cpu(h.oldProc, data), n - 2);
    SameRun(mc, original, m, Cpu(h.oldProc, data), n - 2);
  }

  lemma ShortBackTarget(m: Bytes, t: nat)
    requires 5 <= t < SPACE && t + 5 <= |m| && m[t] == 0xEB && m[t + 1] == 0xF9
    ensures JumpTarget(m, t) == Some(t - 5)
  {
  }

  /** What makes hook 1's old pointer a true copy: see the lemmas above for why. */
  ghost predicate Keeps<D>(mc: Machine<D>, original: Bytes, h: HookDescriptor, data: D) {
    match h.kind
    case Splicing => AllMoveFaithfully(original, h.src, h.oldProc, 0, h.oldCodeSize)
    case DoubleHotPatch => true
    case HotPatch =>
      if h.oldProc == h.src + 2 then mc.sem.effect(MOV_EDI_EDI, data) == data && mc.sem.control(MOV_EDI_EDI, data) == Stays
      else InstructionAt(original, h.src).Some? && !IsRelative(InstructionAt(original, h.src).value)
  }

  /** How many of the original's instructions the old pointer has behind it. */
  function Skipped(h: HookDescriptor): nat {
    match h.kind
    case Splicing => 0
    case DoubleHotPatch => 2
    case HotPatch => if h.oldProc == h.src + 2 then 1 else 0
  }

  /** n instructions of the original leave its moved code other than by a call and meet nothing patched. */
  predicate RunsClear<D>(mc: Machine<D>, original: Bytes, m: Bytes, h: HookDescriptor, data: D, n: nat) {
    n >= Skipped(h) &&
    if h.kind == DoubleHotPatch then Untouched(mc, original, m, Cpu(h.oldProc, data), n - 2)
    else StaysClear(mc, original, m, h.src, h.oldCodeSize, 0, data, n)
  }

  /** Calling hook 1's old pointer, whatever its kind, in any memory in which its chain is intact: every number
      of instructions that the original would execute from its entry is matched, with the same data at the
      same place. */
  lemma OldPointerRunsOriginal<D(!new)>(mc: Machine<D>, original: Bytes, m: Bytes, h: HookDescriptor, data: D, n: nat)
    returns (k: nat)
    requires FirstIsOriginal(original, m, h) && IsMemory(original) && IsMemory(m) && JumpsArePlain(mc.sem)
    requires Keeps(mc, original, h, data) && RunsClear(mc, original, m, h, data, n)
    ensures Execute(mc, original, Cpu(h.src, data), n).Some? && Execute(mc, m, Cpu(h.oldProc, data), k).Some?
    ensures var c, c' := Execute(mc, original, Cpu(h.src, data), n).value, Execute(mc, m, Cpu(h.oldProc, data), k).value;
      c'.data == c.data && SamePlace(c.pc, c'.pc, h.src, h.oldProc, h.oldCodeSize)
  {
    hide BuildFrom, AllMoveFaithfully, InstructionAt, StaysClear, Execute, Untouched, IsRelative, SizeOf, Jump;
    match h.kind
    case Splicing => k := CallsThrough(mc, original, m, h.src, h.oldProc, 0, data, n);
    case DoubleHotPatch =>
      ForeignFirst(mc, original, m, h, data, n);
      k := n - 2;
    case HotPatch =>
      if h.oldProc == h.src + 2 {
        SkippedFirst(mc, original, m, h, data, n);
        k := n - 1;
      } else {
        k := MovedFirst(mc, original, m, h, data, n);
      }
  }

  // ----------------------------------------------------------------------------------------------
  // In every world that calls of set_hook lead to

  /** A hook has replaced the byte: in the first five of a spliced procedure, in the padding and the first two
      of a hot-patched one. */
  predicate Replaced(hooks: seq<HookDescriptor>, t: Address, a: nat) {
    var c := ChainOf(hooks, t);
    c != [] && if c[0].kind == Splicing then t <= a < t + 5 else t - 5 <= a < t + 2
  }

  /** A byte that no hook has replaced, and that the allocator does not hand out. */
  predicate OwnByte(s: Setting, hooks: seq<HookDescriptor>, a: nat) {
    !(s.heapLow <= a < s.heapHigh) && forall t :: t in s.spans ==> !Replaced(hooks, t, a)
  }

  /** Such a byte is what it was before any hook. */
  lemma OwnByteKept(s: Setting, w: World, a: nat)
    requires Proper(s) && WorldInv(s, w) && a < SPACE && OwnByte(s, w.hooks, a)
    ensures w.memory[a] == s.original[a]
  {
    hide FirstIsOriginal, Linked, SameMode, Jump, InHeap;
    if t :| t in s.spans && InSpan(s, t, a) {
      assert TargetInv(s, w, t) && ProperSpan(s, t) && !Replaced(w.hooks, t, a);
      SpanByteKept(s, w, t, a);
    }
  }

  lemma SpanByteKept(s: Setting, w: World, t: Address, a: nat)
    requires t in s.spans && TargetInv(s, w, t) && ProperSpan(s, t) && InSpan(s, t, a) && !Replaced(w.hooks, t, a)
    ensures a < |w.memory| && a < |s.original| && w.memory[a] == s.original[a]
  {
    hide FirstIsOriginal, Linked, SameMode, Jump, ChainOf;
    var m, o, c := w.memory, s.original, ChainOf(w.hooks, t);
    if a >= t + 5 {
      AgreeByte(o, m, t + 5, t + s.spans[t], a);
    } else if c == [] {
      AgreeByte(o, m, t - 5, t + 5, a);
    } else if c[0].kind == Splicing {
      AgreeByte(o, m, t - 5, t, a);
    } else {
      AgreeByte(o, m, t + 2, t + 5, a);
    }
  }

  lemma AgreeByte(m: Bytes, m': Bytes, lo: nat, hi: nat, a: nat)
    requires Agree(m, m', lo, hi) && lo <= a < hi
    ensures m[a] == m'[a]
  {
    assert m[a] == m[lo..hi][a - lo] && m'[a] == m'[lo..hi][a - lo];
  }

  /** n instructions of the original, all fetched from such bytes. */
  predicate StaysOwn<D>(mc: Machine<D>, s: Setting, hooks: seq<HookDescriptor>, c: Cpu<D>, n: nat)
    decreases n
  {
    n > 0 ==>
      && InstructionAt(s.original, c.pc).Some? && OwnBytes(s, hooks, c.pc, |InstructionAt(s.original, c.pc).value|)
      && StaysOwn(mc, s, hooks, Next(mc, s.original, c).value, n - 1)
  }

  predicate OwnBytes(s: Setting, hooks: seq<HookDescriptor>, a: nat, size: nat) {
    forall i :: a <= i < a + size ==> OwnByte(s, hooks, i)
  }

  lemma OwnFetch(s: Setting, w: World, a: nat)
    requires Proper(s) && WorldInv(s, w) && InstructionAt(s.original, a).Some?
    requires OwnBytes(s, w.hooks, a, |InstructionAt(s.original, a).value|)
    ensures InstructionAt(w.memory, a) == InstructionAt(s.original, a)
  {
    hide InstructionAt, IsInstruction, WorldInv, OwnByte, ProperSpan;
    var ins := InstructionAt(s.original, a).value;
    WorldIsMemory(s, w);
    forall i | a <= i < a + |ins| ensures w.memory[i] == s.original[i] {
      OwnByteKept(s, w, i);
    }
    SameFetch(s.original, w.memory, a, ins);
  }

  lemma WorldIsMemory(s: Setting, w: World)
    requires WorldInv(s, w)
    ensures IsMemory(w.memory)
  {
    hide TargetInv, RestKept, InHeap;
  }

  lemma {:induction false} OwnRun<D>(mc: Machine<D>, s: Setting, w: World, c: Cpu<D>, n: nat)
    requires Proper(s) && WorldInv(s, w) && StaysOwn(mc, s, w.hooks, c, n)
    ensures Untouched(mc, s.original, w.memory, c, n)
    decreases n
  {
    hide InstructionAt, IsInstruction, WorldInv, OwnBytes, Run, Landing, Proper;
    if n > 0 {
      OwnFetch(s, w, c.pc);
      OwnRun(mc, s, w, Next(mc, s.original, c).value, n - 1);
    }
  }

  /** The run of the original leaves its moved code other than by a call, and then fetches only such bytes. */
  predicate LeavesForOwn<D>(
    mc: Machine<D>, s: Setting, hooks: seq<HookDescriptor>, src: nat, len: nat, off: nat, data: D, n: nat)
    decreases n
  {
    n > 0 ==>
      InstructionAt(s.original, src + off).Some? &&
      var ins := InstructionAt(s.original, src + off).value;
      match Run(mc.sem, ins, src + off, data)
      case Falls(d) =>
        if off + |ins| < len then LeavesForOwn(mc, s, hooks, src, len, off + |ins|, d, n - 1)
        else StaysOwn(mc, s, hooks, Cpu(Wrap(src + off + |ins|), d), n - 1)
      case Transfers(t, d) => StaysOwn(mc, s, hooks, Cpu(t, d), n - 1)
      case Calls(_, _, _) => false
  }

  lemma {:induction false} OwnIsClear<D>(
    mc: Machine<D>, s: Setting, w: World, src: nat, len: nat, off: nat, data: D, n: nat)
    requires Proper(s) && WorldInv(s, w) && LeavesForOwn(mc, s, w.hooks, src, len, off, data, n)
    ensures StaysClear(mc, s.original, w.memory, src, len, off, data, n)
    decreases n
  {
    hide InstructionAt, IsInstruction, WorldInv, StaysOwn, Untouched, Proper, Wrap, Run;
    if n > 0 {
      var ins := InstructionAt(s.original, src + off).value;
      match Run(mc.sem, ins, src + off, data)
      case Falls(d) =>
        if off + |ins| < len {
          OwnIsClear(mc, s, w, src, len, off + |ins|, d, n - 1);
        } else {
          OwnRun(mc, s, w, Cpu(Wrap(src + off + |ins|), d), n - 1);
        }
      case Transfers(t, d) => OwnRun(mc, s, w, Cpu(t, d), n - 1);
      case Calls(_, _, _) =>
        assert false;
    }
  }

  /** The run of the original that a first hook's old pointer is to match, seen from before any hook. */
  predicate OwnRunOf<D>(mc: Machine<D>, s: Setting, hooks: seq<HookDescriptor>, h: HookDescriptor, data: D, n: nat) {
    n >= Skipped(h) &&
    if h.kind == DoubleHotPatch then StaysOwn(mc, s, hooks, Cpu(h.oldProc, data), n - 2)
    else LeavesForOwn(mc, s, hooks, h.src, h.oldCodeSize, 0, data, n)
  }

  /** After any calls of set_hook on any procedures, the old pointer of a procedure's first hook does n
      instructions of what the procedure did before any hook, for every n; given only that the original run
      fetches, beyond the moved code, no byte that a hook has replaced or the allocator may hand out. */
  lemma OldPointerInEveryWorld<D(!new)>(
    mc: Machine<D>, s: Setting, worlds: seq<World>, calls: seq<Call>, i: nat, t: Address, data: D, n: nat) returns (k: nat)
    requires HookingRun(s, worlds, calls) && i < |worlds| && t in s.spans && JumpsArePlain(mc.sem)
    requires ChainOf(worlds[i].hooks, t) != []
    requires var h := ChainOf(worlds[i].hooks, t)[0];
      Keeps(mc, s.original, h, data) && OwnRunOf(mc, s, worlds[i].hooks, h, data, n)
    ensures var h := ChainOf(worlds[i].hooks, t)[0];
      && h.src == t
      && Execute(mc, s.original, Cpu(t, data), n).Some? && Execute(mc, worlds[i].memory, Cpu(h.oldProc, data), k).Some?
      && var c, c' := Execute(mc, s.original, Cpu(t, data), n).value,
                      Execute(mc, worlds[i].memory, Cpu(h.oldProc, data), k).value;
         c'.data == c.data && SamePlace(c.pc, c'.pc, t, h.oldProc, h.oldCodeSize)
  {
    hide InstructionAt, WorldInv, Step, ProperSpan, StaysOwn, LeavesForOwn, StaysClear, Untouched, FirstIsOriginal, Keeps, Execute,
      Entered, LeadsTo, JumpsArePlain;
    var w, h := worlds[i], ChainOf(worlds[i].hooks, t)[0];
    InvInRuns(s, worlds, calls, i);
    HooksAreLifo(s, worlds, calls, i, t);
    WorldIsMemory(s, w);
    if h.kind == DoubleHotPatch {
      OwnRun(mc, s, w, Cpu(h.oldProc, data), n - 2);
    } else {
      OwnIsClear(mc, s, w, h.src, h.oldCodeSize, 0, data, n);
    }
    k := OldPointerRunsOriginal(mc, s.original, w.memory, h, data, n);
  }
}
