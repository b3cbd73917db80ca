/** The promises of set_hook, over every sequence of its calls. */
module HookTheorems {
  import opened Words
  import opened OpcodeTable
  import opened Ldasm
  import opened Memory
  import opened Trampoline
  import opened CodeHook
  import opened HookChain
  import opened Publication

  // ----------------------------------------------------------------------------------------------
  // Chains in every run

  ghost predicate HookingRun(s: Setting, worlds: seq<World>, calls: seq<Call>) {
    && Proper(s) && |worlds| == |calls| + 1 && worlds[0] == World(s.original, [])
    && forall i :: 0 <= i < |calls| ==> Step(s, worlds[i], calls[i], worlds[i + 1])
  }

  lemma InvAtFirst(s: Setting)
    requires Proper(s)
    ensures WorldInv(s, World(s.original, []))
  {
    hide BuildFrom, FirstIsOriginal;
    forall t | t in s.spans ensures TargetInv(s, World(s.original, []), t) {
      assert ProperSpan(s, t);
    }
  }

  lemma {:induction false} InvInRuns(s: Setting, worlds: seq<World>, calls: seq<Call>, i: nat)
    requires HookingRun(s, worlds, calls) && i < |worlds|
    ensures WorldInv(s, worlds[i])
  {
    hide Proper, Step, WorldInv;
    if i == 0 {
      InvAtFirst(s);
    } else {
      InvInRuns(s, worlds, calls, i - 1);
      StepKeepsInv(s, worlds[i - 1], calls[i - 1], worlds[i]);
    }
  }

  /** An address that is the target, or holds a jump there. */
  predicate LeadsTo(m: Bytes, a: nat, to: Address) {
    a == to || (a + 5 <= |m| && JumpTarget(m, a) == Some(to))
  }

  lemma LinkLeads(m: Bytes, h: HookDescriptor, previous: Address)
    requires Link(m, h, previous)
    ensures LeadsTo(m, h.oldProc, previous)
  {
    hide Jump, JumpTarget;
    if h.kind == Splicing {
      var b := m[h.oldProc..h.oldProc + 10];
      assert m[h.oldProc..h.oldProc + 5] == b[..5];
      JumpGoes(m, h.oldProc, previous);
    }
  }

  lemma EntranceLeads(original: Bytes, m: Bytes, t: Address, c: seq<HookDescriptor>)
    requires Entrance(original, m, t, c) && c != []
    ensures Entered(m, t) == Some(Newest(c))
  {
    hide Jump, JumpTarget;
    if c[0].kind == Splicing {
      JumpDecodes(t, Newest(c));
      assert m[t] == m[t..t + 5][0] == Jump(t, Newest(c))[..1][0];
      assert m[t..t + 2][0] == m[t];
      JumpGoes(m, t, Newest(c));
    } else {
      ShortBackGoes(m, t, Newest(c));
    }
  }

  /** Hooks are last in, first out: after any calls of set_hook, entering a procedure reaches its newest
      hook, the old pointer of every hook leads to the hook before it, and the first one's leads to the
      original code.  A procedure without hooks is as it was. */
  lemma HooksAreLifo(s: Setting, worlds: seq<World>, calls: seq<Call>, i: nat, t: Address)
    requires HookingRun(s, worlds, calls) && i < |worlds| && t in s.spans
    ensures var m, c := worlds[i].memory, ChainOf(worlds[i].hooks, t);
      && Window(m, t)
      && (c != [] ==> Entered(m, t) == Some(c[|c| - 1].newProc) && FirstIsOriginal(s.original, m, c[0]))
      && (forall k :: 1 <= k < |c| ==> LeadsTo(m, c[k].oldProc, c[k - 1].newProc))
      && (c == [] ==> Agree(s.original, m, t - 5, t + s.spans[t]))
  {
    hide Proper, Step, Link, FirstIsOriginal, Agree, LeadsTo, Entered, Jump, RestKept, InHeap;
    var m, c := worlds[i].memory, ChainOf(worlds[i].hooks, t);
    InvInRuns(s, worlds, calls, i);
    assert TargetInv(s, worlds[i], t);
    if c == [] {
      JoinAgree(s.original, m, t - 5, t + 5, t + s.spans[t]);
    } else {
      EntranceLeads(s.original, m, t, c);
    }
    forall k | 1 <= k < |c| ensures LeadsTo(m, c[k].oldProc, c[k - 1].newProc) {
      LinkLeads(m, c[k], c[k - 1].newProc);
    }
  }

  /** A call changes nothing about another procedure: its hooks, its bytes and the buffers behind its old
      pointers stay.  Its own procedure gets the new hook in front exactly if the call succeeds. */
  lemma OthersUntouched(s: Setting, worlds: seq<World>, calls: seq<Call>, i: nat, t: Address)
    requires HookingRun(s, worlds, calls) && i < |calls| && t in s.spans
    ensures var w, w', c, call := worlds[i], worlds[i + 1], ChainOf(worlds[i].hooks, t), calls[i];
      && (t != call.src ==> ChainOf(w'.hooks, t) == c && Agree(w.memory, w'.memory, t - 5, t + s.spans[t]))
      && CanHook(w.memory, call.src, call.small, call.large)
      && (t == call.src ==>
            match SetHookOn(w.memory, t, call.newProc, call.small, call.large)
            case Hooked(_, hook) => hook.newProc == call.newProc && ChainOf(w'.hooks, t) == c + [hook]
            case Refused => ChainOf(w'.hooks, t) == c)
      && forall k :: 0 <= k < |c| ==> BlockKept(w.memory, w'.memory, c[k])
  {
    hide Proper, WorldInv, BlockKept, Agree, ChangesOnly, SetHookOn, OnlyBuffer, OwnBlock, CanHook, Free, BuildFrom;
    var w, w', call := worlds[i], worlds[i + 1], calls[i];
    InvInRuns(s, worlds, calls, i);
    StepChanges(s, w, call, w');
    ChainBlocks(s, w, w'.memory, call, t, ChainOf(w.hooks, t));
    AppendedHook(s, w, call, w', t);
    if t != call.src {
      SpanKept(s, w, w'.memory, call, t);
    }
  }

  lemma AppendedHook(s: Setting, w: World, c: Call, w': World, t: Address)
    requires Step(s, w, c, w')
    ensures match SetHookOn(w.memory, c.src, c.newProc, c.small, c.large)
      case Hooked(_, hook) =>
        hook.newProc == c.newProc && ChainOf(w'.hooks, t) == ChainOf(w.hooks, t) + (if t == c.src then [hook] else [])
      case Refused => ChainOf(w'.hooks, t) == ChainOf(w.hooks, t)
  {
    hide BuildFrom, SetHookOn, ChangesOnly, OwnBlock, CanHook, Free;
    var r := SetHookOn(w.memory, c.src, c.newProc, c.small, c.large);
    if r.Hooked? {
      HookingChanges(w.memory, c.src, c.newProc, c.small, c.large);
      ChainAppends(w.hooks, r.hook, t);
    }
  }

  lemma SpanKept(s: Setting, w: World, m': Bytes, c: Call, t: Address)
    requires Proper(s) && WorldInv(s, w) && CallOk(s, w, c) && ChangesOnly(w.memory, m', c.src, c.small, c.large)
    requires t in s.spans && t != c.src
    ensures 5 <= t && Agree(w.memory, m', t - 5, t + s.spans[t])
  {
    hide BuildFrom, ChangesOnly, CanHook, ChainInv, RestKept;
    assert ProperSpan(s, c.src) && ProperSpan(s, t) && TargetInv(s, w, t);
    KeptElsewhere(w.memory, m', c.src, c.small, c.large, t - 5, s.spans[t] + 5);
  }

  // ----------------------------------------------------------------------------------------------
  // What hook 1's old pointer does

  /** The trampoline of a spliced procedure does what the original code did and goes on behind it. */
  lemma FirstSplicedRuns<D(!new)>(sem: Semantics<D>, original: Bytes, m: Bytes, h: HookDescriptor, data: D)
    requires FirstIsOriginal(original, m, h) && h.kind == Splicing && JumpIsPlain(sem)
    requires AllMoveFaithfully(original, h.src, h.oldProc, 0, h.oldCodeSize)
    ensures var t, old', len := h.src, h.oldProc, h.oldCodeSize;
      && Walk(sem, original, t, 0, len, data) != Lost
      && Walk(sem, m, old', 0, len + 5, data) == Image(Walk(sem, original, t, 0, len, data), t, old', len)
  {
    hide BuildFrom, Walk, AllMoveFaithfully, InstructionAt;
    TrampolineRuns(sem, original, m, h.src, h.oldProc, 0, data);
  }

  /** The first instruction of a hot-patched procedure, in its buffer: it keeps its meaning exactly if it
      is no relative branch, which with two bytes is a short one. */
  lemma FirstMovedRuns<D(!new)>(sem: Semantics<D>, original: Bytes, m: Bytes, h: HookDescriptor, data: D)
    requires FirstIsOriginal(original, m, h) && h.kind == HotPatch && h.oldProc != h.src + 2 && h.oldProc != h.src
    requires IsMemory(original) && JumpIsPlain(sem)
    ensures IsInstruction(original[h.src..h.src + 2])
    ensures var ins, t, buf := original[h.src..h.src + 2], h.src, h.oldProc;
      (IsRelative(ins) ==> IsCall(ins) || sem.taken(ins[..KeyLength(ins)], data)) ==>
        (Walk(sem, m, buf, 0, 7, data) == Image(Walk(sem, original, t, 0, 2, data), t, buf, 2) <==> !IsRelative(ins))
  {
    hide SizeOf, CodeFlags, IsRelative, IsCall, KeyLength, Jump, Run, Walk, IsInstruction, InstructionAt, CopiesFaithfully,
      FirstIsOriginal, Image, Moved;
    var t: nat, buf: nat := h.src, h.oldProc;
    var ins := FirstCopied(original, m, h);
    TwoBytes(ins, t, buf);
    if IsRelative(ins) ==> IsCall(ins) || sem.taken(ins[..KeyLength(ins)], data) {
      CopiedRuns(sem, ins, t, buf, data);
      WalksOfTwo(sem, original, m, t, buf, ins, data);
      if IsRelative(ins) {
        TakenLeaves(sem, ins, t, data);
        TakenLeaves(sem, ins, buf, data);
      }
    }
  }

  /** A two-byte instruction and its copy with a jump back behind it. */
  lemma WalksOfTwo<D(!new)>(sem: Semantics<D>, original: Bytes, m: Bytes, t: nat, buf: nat, ins: Bytes, data: D)
    requires |ins| == 2 && InstructionAt(original, t) == Some(ins) && InstructionAt(m, buf) == Some(ins) && JumpIsPlain(sem)
    requires InstructionAt(m, buf + 2) == Some(Jump(buf + 2, t + 2))
    ensures var same := Run(sem, ins, buf, data) == Moved(Run(sem, ins, t, data), t, buf);
      var alike := Walk(sem, m, buf, 0, 7, data) == Image(Walk(sem, original, t, 0, 2, data), t, buf, 2);
      (same ==> alike) && (!Run(sem, ins, buf, data).Falls? && !Run(sem, ins, t, data).Falls? && alike ==> same)
  {
    hide SizeOf, CodeFlags, IsRelative, IsCall, KeyLength, Jump, Run, Walk, IsInstruction, InstructionAt, Wrap;
    WalkStep(sem, original, t, 0, 2, data, ins);
    WalkStep(sem, m, buf, 0, 7, data, ins);
    if Run(sem, ins, t, data).Falls? {
      var d := Run(sem, ins, t, data).data;
      WalkEnds(sem, original, t, 2, 2, d);
      WalkStep(sem, m, buf, 2, 7, d, Jump(buf + 2, t + 2));
      JumpRuns(sem, buf + 2, t + 2, d);
    }
  }

  lemma FirstCopied(original: Bytes, m: Bytes, h: HookDescriptor) returns (ins: Bytes)
    requires FirstIsOriginal(original, m, h) && h.kind == HotPatch && h.oldProc != h.src + 2
    ensures h.src + 2 <= |original| && ins == original[h.src..h.src + 2]
    ensures
      && InstructionAt(original, h.src) == Some(ins) && InstructionAt(m, h.oldProc) == Some(ins)
      && IsInstruction(Jump(h.oldProc + 2, h.src + 2)) && InstructionAt(m, h.oldProc + 2) == Some(Jump(h.oldProc + 2, h.src + 2))
  {
    hide SizeOf, CodeFlags, Jump, IsInstruction;
    var t: nat, buf: nat := h.src, h.oldProc;
    ins := original[t..t + 2];
    assert original[t..][..2] == ins;
    assert InstructionAt(original, t) == Some(ins);
    TurnPlaced(m, buf, 0, ins, Jump(buf + 2, t + 2));
    FoundAt(m, buf, ins);
    JumpDecodes(buf + 2, t + 2);
    FoundAt(m, buf + 2, Jump(buf + 2, t + 2));
  }

  lemma TwoBytes(ins: Bytes, from: int, to: int)
    requires IsInstruction(ins) && |ins| == 2
    ensures CopiesFaithfully(ins, from, to) <==> !IsRelative(ins)
  {
    hide SizeOf, CodeFlags, IsInstruction, IsRelative;
    if IsRelative(ins) {
      TwoByteBranch(ins);
    }
  }

  lemma TakenLeaves<D>(sem: Semantics<D>, ins: Bytes, at: nat, data: D)
    requires IsInstruction(ins) && IsRelative(ins) && (IsCall(ins) || sem.taken(ins[..KeyLength(ins)], data))
    ensures !Run(sem, ins, at, data).Falls?
  {
    hide SizeOf, CodeFlags, IsInstruction, IsRelative, IsCall, KeyLength, BranchTarget;
  }
}
