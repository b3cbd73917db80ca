/** Calls among the moved instructions.  They push addresses of the trampoline where the original pushes its
    own, so from then on the two runs have different data; but as long as return addresses are only used to
    return, the runs stay at corresponding places. */
module ReturnAddresses {
  import opened Words
  import opened OpcodeTable
  import opened Ldasm
  import opened Memory
  import opened Trampoline
  import opened Machines
  import opened CodeHook
  import opened HookChain
  import opened HookTheorems
  import opened Publication

  // ----------------------------------------------------------------------------------------------
  // Corresponding places and data

  /** Moved code, its copy, and the offsets at which its instructions begin. */
  datatype Layout = Layout(src: nat, buf: nat, len: nat, offs: set<nat>)

  /** The same place, or an instruction of the moved code (or the one behind it) and its copy (or the jump
      behind that). */
  predicate Twin(lay: Layout, pc: Address, pc': Address) {
    pc' == pc
    || (lay.src <= pc && (pc - lay.src in lay.offs || pc - lay.src == lay.len) && pc' == pc - lay.src + lay.buf)
  }

  predicate TwinControl(lay: Layout, a: Control, b: Control) {
    match (a, b)
    case (Stays, Stays) => true
    case (JumpsTo(t), JumpsTo(t')) => Twin(lay, t, t')
    case (CallsTo(t), CallsTo(t')) => Twin(lay, t, t')
    case (_, _) => false
  }

  /** Instructions that are honest do the same to related data, but for return addresses that correspond; and
      pushing corresponding addresses keeps data related. */
  ghost predicate Respects<D(!new)>(mc: Machine<D>, lay: Layout, rel: (D, D) -> bool, honest: Bytes -> bool) {
    && (forall ins: Bytes, d, d' :: honest(ins) && rel(d, d') ==> RespectsAt(mc, lay, rel, ins, d, d'))
    && (forall r: Address, r': Address, d, d' :: Twin(lay, r, r') && rel(d, d') ==> rel(mc.push(r, d), mc.push(r', d')))
  }

  predicate RespectsAt<D>(mc: Machine<D>, lay: Layout, rel: (D, D) -> bool, ins: Bytes, d: D, d': D) {
    && rel(mc.sem.effect(ins, d), mc.sem.effect(ins, d')) && mc.sem.taken(ins, d) == mc.sem.taken(ins, d')
    && TwinControl(lay, mc.sem.control(ins, d), mc.sem.control(ins, d'))
  }

  /** The bytes by which the machine knows the instruction. */
  function Known(ins: Bytes): Bytes
    requires IsInstruction(ins)
  {
    if IsRelative(ins) then ins[..KeyLength(ins)] else ins
  }

  /** Outcomes of one instruction in one place. */
  predicate TwinOutcome<D>(lay: Layout, rel: (D, D) -> bool, o: Outcome<D>, o': Outcome<D>) {
    match (o, o')
    case (Falls(d), Falls(d')) => rel(d, d')
    case (Transfers(t, d), Transfers(t', d')) => Twin(lay, t, t') && rel(d, d')
    case (Calls(t, r, d), Calls(t', r', d')) => Twin(lay, t, t') && r' == r && rel(d, d')
    case (_, _) => false
  }

  lemma SameInstructionTwins<D(!new)>(
    mc: Machine<D>, lay: Layout, rel: (D, D) -> bool, honest: Bytes -> bool, ins: Bytes, at: nat, d: D, d': D)
    requires IsInstruction(ins) && honest(Known(ins)) && Respects(mc, lay, rel, honest) && rel(d, d')
    ensures TwinOutcome(lay, rel, Run(mc.sem, ins, at, d), Run(mc.sem, ins, at, d'))
    ensures Run(mc.sem, ins, at, d).Calls? ==> Run(mc.sem, ins, at, d).ret == Wrap(at + |ins|)
  {
    hide SizeOf, CodeFlags, IsInstruction, IsRelative, KeyLength, IsCall, BranchTarget, Cuts, Wrap;
    assert RespectsAt(mc, lay, rel, Known(ins), d, d');
  }

  // ----------------------------------------------------------------------------------------------
  // Copies

  /** One moved instruction: its copy does the same, as seen from there. */
  ghost predicate CopiedAt<D(!new)>(sem: Semantics<D>, m: Bytes, m': Bytes, lay: Layout, off: nat) {
    && InstructionAt(m, lay.src + off).Some? && InstructionAt(m', lay.buf + off).Some?
    && var ins, moved := InstructionAt(m, lay.src + off).value, InstructionAt(m', lay.buf + off).value;
       && |moved| == |ins| && (off + |ins| in lay.offs || off + |ins| == lay.len)
       && forall d :: MovesAs(sem, ins, moved, lay, off, d)
  }

  ghost predicate MovesAs<D>(sem: Semantics<D>, ins: Bytes, moved: Bytes, lay: Layout, off: nat, d: D)
    requires IsInstruction(ins) && IsInstruction(moved)
  {
    Run(sem, moved, lay.buf + off, d) == Moved(Run(sem, ins, lay.src + off, d), lay.src, lay.buf)
  }

  /** Moved code with its copy, and the jump behind the copy. */
  ghost predicate Copied<D(!new)>(sem: Semantics<D>, m: Bytes, m': Bytes, lay: Layout) {
    && lay.src + lay.len < SPACE && lay.buf + lay.len < SPACE && 0 in lay.offs
    && (forall off :: off in lay.offs ==> off < lay.len && CopiedAt(sem, m, m', lay, off))
    && IsInstruction(Jump(lay.buf + lay.len, lay.src + lay.len))
    && InstructionAt(m', lay.buf + lay.len) == Some(Jump(lay.buf + lay.len, lay.src + lay.len))
  }

  // ----------------------------------------------------------------------------------------------
  // Two runs side by side

  ghost predicate TwinCpus<D>(lay: Layout, rel: (D, D) -> bool, c: Cpu<D>, c': Cpu<D>) {
    Twin(lay, c.pc, c'.pc) && rel(c.data, c'.data)
  }

  /** One instruction of the original; where the two are at the same place it is untouched. */
  ghost predicate Together<D>(
    mc: Machine<D>, m: Bytes, m': Bytes, lay: Layout, honest: Bytes -> bool, c: Cpu<D>, c': Cpu<D>, n: nat)
    decreases n
  {
    n > 0 ==>
      && InstructionAt(m, c.pc).Some? && honest(Known(InstructionAt(m, c.pc).value))
      && (c'.pc == c.pc || c.pc == lay.src + lay.len ==> InstructionAt(m', c.pc) == InstructionAt(m, c.pc))
      && var at := if c.pc == lay.src + lay.len then Cpu(c.pc, c'.data) else c';
         Next(mc, m', at).Some? && Together(mc, m, m', lay, honest, Next(mc, m, c).value, Next(mc, m', at).value, n - 1)
  }

  lemma SamePlaceTwins<D(!new)>(
    mc: Machine<D>, m: Bytes, m': Bytes, lay: Layout, rel: (D, D) -> bool, honest: Bytes -> bool, pc: Address, d: D, d': D)
    requires Respects(mc, lay, rel, honest) && rel(d, d')
    requires InstructionAt(m, pc).Some? && InstructionAt(m', pc) == InstructionAt(m, pc)
    requires honest(Known(InstructionAt(m, pc).value))
    ensures Next(mc, m, Cpu(pc, d)).Some? && Next(mc, m', Cpu(pc, d')).Some?
    ensures TwinCpus(lay, rel, Next(mc, m, Cpu(pc, d)).value, Next(mc, m', Cpu(pc, d')).value)
  {
    hide InstructionAt, IsInstruction, Run, RespectsAt, Known, Wrap;
    SameInstructionTwins(mc, lay, rel, honest, InstructionAt(m, pc).value, pc, d, d');
  }

  lemma MovedTwins<D(!new)>(
    mc: Machine<D>, m: Bytes, m': Bytes, lay: Layout, rel: (D, D) -> bool, honest: Bytes -> bool, off: nat, d: D, d': D)
    requires Respects(mc, lay, rel, honest) && rel(d, d') && Copied(mc.sem, m, m', lay) && off in lay.offs
    requires InstructionAt(m, lay.src + off).Some? && honest(Known(InstructionAt(m, lay.src + off).value))
    ensures lay.src + off < SPACE && lay.buf + off < SPACE
    ensures Next(mc, m, Cpu(lay.src + off, d)).Some? && Next(mc, m', Cpu(lay.buf + off, d')).Some?
    ensures TwinCpus(lay, rel, Next(mc, m, Cpu(lay.src + off, d)).value, Next(mc, m', Cpu(lay.buf + off, d')).value)
  {
    hide InstructionAt, IsInstruction, Run, Known, Jump, Respects, Landing, TwinCpus, Next, MovesAs, Copied, CopiedAt, Wrap;
    var ins, moved := ReadCopy(mc.sem, m, m', lay, off, d');
    PlacedTwins(mc, lay, rel, honest, ins, moved, off, d, d');
    NextIs(mc, m, lay.src + off, d, ins);
    NextIs(mc, m', lay.buf + off, d', moved);
  }

  lemma ReadCopy<D(!new)>(sem: Semantics<D>, m: Bytes, m': Bytes, lay: Layout, off: nat, d: D) returns (ins: Bytes, moved: Bytes)
    requires Copied(sem, m, m', lay) && off in lay.offs
    ensures InstructionAt(m, lay.src + off) == Some(ins) && InstructionAt(m', lay.buf + off) == Some(moved)
    ensures |moved| == |ins| && (off + |ins| in lay.offs || off + |ins| == lay.len) && MovesAs(sem, ins, moved, lay, off, d)
    ensures lay.src + off + |ins| < SPACE && lay.buf + off + |ins| < SPACE
  {
    hide InstructionAt, IsInstruction, Run, Jump, MovesAs, CopiedAt;
    assert CopiedAt(sem, m, m', lay, off);
    ins, moved := ReadCopyAt(sem, m, m', lay, off, d);
  }

  lemma ReadCopyAt<D(!new)>(sem: Semantics<D>, m: Bytes, m': Bytes, lay: Layout, off: nat, d: D)
    returns (ins: Bytes, moved: Bytes)
    requires CopiedAt(sem, m, m', lay, off) && forall o :: o in lay.offs ==> o < lay.len
    ensures InstructionAt(m, lay.src + off) == Some(ins) && InstructionAt(m', lay.buf + off) == Some(moved)
    ensures |moved| == |ins| && (off + |ins| in lay.offs || off + |ins| == lay.len) && MovesAs(sem, ins, moved, lay, off, d)
    ensures off + |ins| <= lay.len
  {
    hide InstructionAt, IsInstruction, MovesAs;
    ins, moved := InstructionAt(m, lay.src + off).value, InstructionAt(m', lay.buf + off).value;
  }

  lemma NextIs<D>(mc: Machine<D>, m: Bytes, pc: nat, d: D, ins: Bytes)
    requires InstructionAt(m, pc) == Some(ins) && pc + |ins| < SPACE
    ensures Next(mc, m, Cpu(pc, d)) == Some(Landing(mc, Run(mc.sem, ins, pc, d), pc + |ins|))
  {
    hide InstructionAt, IsInstruction, Run, Landing, Wrap;
    NoWrap(pc + |ins|);
  }

  lemma PlacedTwins<D(!new)>(
    mc: Machine<D>, lay: Layout, rel: (D, D) -> bool, honest: Bytes -> bool, ins: Bytes, moved: Bytes, off: nat, d: D, d': D)
    requires Respects(mc, lay, rel, honest) && rel(d, d') && IsInstruction(ins) && IsInstruction(moved) && honest(Known(ins))
    requires lay.src + off + |ins| < SPACE && lay.buf + off + |ins| < SPACE
    requires off + |ins| in lay.offs || off + |ins| == lay.len
    requires MovesAs(mc.sem, ins, moved, lay, off, d')
    ensures TwinCpus(lay, rel, Landing(mc, Run(mc.sem, ins, lay.src + off, d), lay.src + off + |ins|),
                               Landing(mc, Run(mc.sem, moved, lay.buf + off, d'), lay.buf + off + |ins|))
  {
    hide IsInstruction, Run, RespectsAt, Known, Wrap, Respects, Landing, Moved, TwinOutcome, TwinCpus;
    var next := off + |ins|;
    SameInstructionTwins(mc, lay, rel, honest, ins, lay.src + off, d, d');
    NoWrap(lay.src + next);
    LandingTwins(mc, lay, rel, honest, Run(mc.sem, ins, lay.src + off, d), Run(mc.sem, ins, lay.src + off, d'), next);
  }

  /** Behind a moved instruction. */
  lemma LandingTwins<D(!new)>(
    mc: Machine<D>, lay: Layout, rel: (D, D) -> bool, honest: Bytes -> bool, o: Outcome<D>, o': Outcome<D>, next: nat)
    requires Respects(mc, lay, rel, honest) && TwinOutcome(lay, rel, o, o') && (next in lay.offs || next == lay.len)
    requires lay.src + next < SPACE && lay.buf + next < SPACE && (o.Calls? ==> o.ret == lay.src + next)
    ensures TwinCpus(lay, rel, Landing(mc, o, lay.src + next), Landing(mc, Moved(o', lay.src, lay.buf), lay.buf + next))
  {
    hide Wrap, RespectsAt;
    NoWrap(lay.buf + next);
  }

  lemma NoWrap(a: nat)
    ensures a < SPACE ==> Wrap(a) == a
  {
  }

  /** From corresponding places with related data, every number of instructions of the original is matched, and
      ends at corresponding places with related data; through calls out of the moved code and returns into
      it. */
  lemma {:induction false} TwinRuns<D(!new)>(
    mc: Machine<D>, m: Bytes, m': Bytes, lay: Layout, rel: (D, D) -> bool, honest: Bytes -> bool, c: Cpu<D>, c': Cpu<D>, n: nat)
    returns (k: nat)
    requires Respects(mc, lay, rel, honest) && Copied(mc.sem, m, m', lay) && JumpIsPlain(mc.sem)
    requires TwinCpus(lay, rel, c, c') && Together(mc, m, m', lay, honest, c, c', n)
    ensures Execute(mc, m, c, n).Some? && Execute(mc, m', c', k).Some?
    ensures TwinCpus(lay, rel, Execute(mc, m, c, n).value, Execute(mc, m', c', k).value)
    decreases n
  {
    hide InstructionAt, IsInstruction, Run, RespectsAt, Known, Wrap, Jump, Respects, Copied, Next, Execute;
    if n == 0 {
      k := 0;
      NoStep(mc, m, c);
      NoStep(mc, m', c');
      return;
    }
    var at := if c.pc == lay.src + lay.len then Cpu(c.pc, c'.data) else c';
    if at.pc == c.pc {
      SamePlaceTwins(mc, m, m', lay, rel, honest, c.pc, c.data, at.data);
    } else {
      MovedTwins(mc, m, m', lay, rel, honest, c.pc - lay.src, c.data, at.data);
    }
    var d, d' := Next(mc, m, c).value, Next(mc, m', at).value;
    k := TwinRuns(mc, m, m', lay, rel, honest, d, d', n - 1);
    OldStep(mc, m, c, d, n - 1);
    OldStep(mc, m', at, d', k);
    k := k + 1;
    if at != c' {
      BehindCopy(mc, m, m', lay, c'.data);
      OldStep(mc, m', c', at, k);
      k := k + 1;
    }
  }

  /** The jump behind the copy. */
  lemma BehindCopy<D(!new)>(mc: Machine<D>, m: Bytes, m': Bytes, lay: Layout, d: D)
    requires Copied(mc.sem, m, m', lay) && JumpIsPlain(mc.sem)
    ensures lay.src + lay.len < SPACE && lay.buf + lay.len < SPACE
    ensures Next(mc, m', Cpu(lay.buf + lay.len, d)) == Some(Cpu(lay.src + lay.len, d))
  {
    hide InstructionAt, IsInstruction, Run, Wrap, Jump, CopiedAt;
    JumpRuns(mc.sem, lay.buf + lay.len, lay.src + lay.len, d);
    NoWrap(lay.src + lay.len);
  }

  // ----------------------------------------------------------------------------------------------
  // Trampolines and moved first instructions are such copies

  function Starts(m: Bytes, src: nat, len: nat): set<nat> {
    set o | o in Boundaries(m, src, 0, len)
  }

  lemma FirstBoundary(m: Bytes, src: nat, off: nat, len: nat)
    requires off < len
    ensures off in Boundaries(m, src, off, len)
  {
    hide InstructionAt;
  }

  lemma MovedOnce<D(!new)>(sem: Semantics<D>, ins: Bytes, moved: Bytes, lay: Layout, off: nat, d: D)
    requires Accepted(ins) && MovesFaithfully(ins, lay.src, lay.buf) && moved == Move(ins, lay.src + off, lay.buf + off)
    ensures IsInstruction(moved) && MovesAs(sem, ins, moved, lay, off, d)
  {
    hide SizeOf, CodeFlags, IsInstruction, IsRelative, KeyLength, IsCall, Move, Prefixed, Run, MovesFaithfully;
    SameDistance(ins, lay.src, lay.buf, off);
    MovedRuns(sem, ins, lay.src + off, lay.buf + off, d);
    SameShift(Run(sem, ins, lay.src + off, d), lay.src, lay.buf, off);
  }

  lemma SameShift<D>(o: Outcome<D>, from: nat, to: nat, off: nat)
    ensures Moved(o, from + off, to + off) == Moved(o, from, to)
  {
    hide Wrap;
  }

  lemma {:induction false} CopiesFrom<D(!new)>(sem: Semantics<D>, m: Bytes, m': Bytes, lay: Layout, off: nat)
    requires Placed(m, m', lay.src, lay.buf, off) && lay.len == BuildFrom(m, lay.src, lay.buf, off).len
    requires AllMoveFaithfully(m, lay.src, lay.buf, off, lay.len)
    requires forall o :: o in Boundaries(m, lay.src, off, lay.len) ==> o in lay.offs
    ensures forall o :: o in Boundaries(m, lay.src, off, lay.len) ==> o < lay.len && CopiedAt(sem, m, m', lay, o)
    ensures IsInstruction(Jump(lay.buf + lay.len, lay.src + lay.len))
    ensures InstructionAt(m', lay.buf + lay.len) == Some(Jump(lay.buf + lay.len, lay.src + lay.len))
    decreases 5 - off
  {
    hide CodeFlags, SizeOf, IsInstruction, Accepted, Jump, InstructionAt, BuildFrom, Move, Boundaries, MovesFaithfully, MovesAs;
    var ins, moved, len := PlacedTurn(m, m', lay.src, lay.buf, off);
    var next := off + |ins|;
    BoundaryStep(m, lay.src, off, len, ins);
    forall d ensures IsInstruction(moved) && MovesAs(sem, ins, moved, lay, off, d) {
      MovedOnce(sem, ins, moved, lay, off, d);
    }
    if next < 5 {
      FirstBoundary(m, lay.src, next, len);
      CopiesFrom(sem, m, m', lay, next);
    } else {
      BoundariesEnd(m, lay.src, len);
    }
    assert off in Boundaries(m, lay.src, off, len);
    assert CopiedAt(sem, m, m', lay, off);
  }

  lemma TrampolineIsCopy<D(!new)>(sem: Semantics<D>, m: Bytes, m': Bytes, src: nat, buf: nat)
    requires Placed(m, m', src, buf, 0) && IsMemory(m')
    requires var len := BuildFrom(m, src, buf, 0).len; AllMoveFaithfully(m, src, buf, 0, len) && src + len < SPACE
    ensures var len := BuildFrom(m, src, buf, 0).len; Copied(sem, m, m', Layout(src, buf, len, Starts(m, src, len)))
  {
    hide InstructionAt, BuildFrom, Boundaries, CopiedAt, Jump, IsInstruction, AllMoveFaithfully;
    var len := BuildFrom(m, src, buf, 0).len;
    FirstBoundary(m, src, 0, len);
    CopiesFrom(sem, m, m', Layout(src, buf, len, Starts(m, src, len)), 0);
  }

  lemma FirstIsCopy<D(!new)>(sem: Semantics<D>, original: Bytes, m: Bytes, h: HookDescriptor)
    requires FirstIsOriginal(original, m, h) && h.kind == HotPatch && h.oldProc != h.src + 2
    requires IsMemory(original) && IsMemory(m) && h.src + 2 < SPACE
    requires InstructionAt(original, h.src).Some? && !IsRelative(InstructionAt(original, h.src).value)
    ensures Copied(sem, original, m, Layout(h.src, h.oldProc, 2, {0}))
  {
    hide SizeOf, CodeFlags, IsRelative, IsInstruction, InstructionAt, Jump, Run, CopiesFaithfully, IsCall, KeyLength;
    var ins := FirstCopied(original, m, h);
    var lay := Layout(h.src, h.oldProc, 2, {0});
    NotRelative(ins, h.src, h.oldProc);
    forall d ensures MovesAs(sem, ins, ins, lay, 0, d) {
      CopiedRuns(sem, ins, h.src, h.oldProc, d);
    }
    assert CopiedAt(sem, original, m, lay, 0);
  }

  // ----------------------------------------------------------------------------------------------
  // Hook 1's old pointer

  /** The layout of a first hook that moved code. */
  function LayoutOf(original: Bytes, h: HookDescriptor): Layout {
    Layout(h.src, h.oldProc, h.oldCodeSize, if h.kind == Splicing then Starts(original, h.src, h.oldCodeSize) else {0})
  }

  /** Calling hook 1's old pointer when the moved instructions may call: every number of instructions of the
      original is matched, at corresponding places and with related data. */
  lemma OldPointerThroughCalls<D(!new)>(
    mc: Machine<D>, original: Bytes, m: Bytes, h: HookDescriptor, rel: (D, D) -> bool, honest: Bytes -> bool,
    data: D, data': D, n: nat)
    returns (k: nat)
    requires FirstIsOriginal(original, m, h) && IsMemory(original) && IsMemory(m) && JumpIsPlain(mc.sem)
    requires h.kind == Splicing || (h.kind == HotPatch && h.oldProc != h.src + 2)
    requires h.src + h.oldCodeSize < SPACE
    requires
      if h.kind == Splicing then AllMoveFaithfully(original, h.src, h.oldProc, 0, h.oldCodeSize)
      else InstructionAt(original, h.src).Some? && !IsRelative(InstructionAt(original, h.src).value)
    requires Respects(mc, LayoutOf(original, h), rel, honest) && rel(data, data')
    requires Together(mc, original, m, LayoutOf(original, h), honest, Cpu(h.src, data), Cpu(h.oldProc, data'), n)
    ensures Execute(mc, original, Cpu(h.src, data), n).Some? && Execute(mc, m, Cpu(h.oldProc, data'), k).Some?
    ensures TwinCpus(LayoutOf(original, h), rel,
      Execute(mc, original, Cpu(h.src, data), n).value, Execute(mc, m, Cpu(h.oldProc, data'), k).value)
  {
    hide BuildFrom, AllMoveFaithfully, InstructionAt, Execute, IsRelative, SizeOf, Jump, Respects, Together, Copied, Boundaries;
    var lay := LayoutOf(original, h);
    if h.kind == Splicing {
      TrampolineIsCopy(mc.sem, original, m, h.src, h.oldProc);
      FirstBoundary(original, h.src, 0, h.oldCodeSize);
    } else {
      FirstIsCopy(mc.sem, original, m, h);
    }
    k := TwinRuns(mc, original, m, lay, rel, honest, Cpu(h.src, data), Cpu(h.oldProc, data'), n);
  }

  // ----------------------------------------------------------------------------------------------
  // A machine with a stack of return addresses

  const RET: Bytes := [0xC3]
  const CALL_EAX: Bytes := [0xFF, 0xD0]

  function StackMachine(eax: Address): Machine<seq<Address>> {
    Machine(
      Semantics(
        (ins: Bytes, d: seq<Address>) => if ins == RET && d != [] then d[1..] else d,
        (ins: Bytes, d: seq<Address>) => true,
        (ins: Bytes, d: seq<Address>) =>
          if ins == RET && d != [] then JumpsTo(d[0]) else if ins == CALL_EAX then CallsTo(eax) else Stays),
      (r: Address, d: seq<Address>) => [r] + d)
  }

  predicate StackTwins(lay: Layout, d: seq<Address>, d': seq<Address>) {
    |d'| == |d| && forall i :: 0 <= i < |d| ==> Twin(lay, d[i], d'[i])
  }

  /** For example a machine that pushes return addresses and pops them to return. */
  lemma StackRespects(eax: Address, lay: Layout)
    ensures Respects(StackMachine(eax), lay, (d, d') => StackTwins(lay, d, d'), _ => true)
  {
    var mc, rel := StackMachine(eax), (d: seq<Address>, d': seq<Address>) => StackTwins(lay, d, d');
    forall ins: Bytes, d, d' | rel(d, d') ensures RespectsAt(mc, lay, rel, ins, d, d') {
      assert d == [] <==> d' == [];
    }
  }
}
