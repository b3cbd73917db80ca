/** A procedure of NOPs in a memory of NOPs: the premises about memory, buffers and calls can be met, and the
    splice is what happens. */
module HookExample {
  import opened Words
  import opened OpcodeTable
  import opened Ldasm
  import opened Memory
  import opened Trampoline
  import opened CodeHook
  import opened HookChain
  import opened HookTheorems

  const NOP: Bytes := [0x90]

  function AllNops(): (m: Bytes)
    ensures IsMemory(m) && forall a :: 0 <= a < SPACE ==> m[a] == 0x90
  {
    seq(SPACE, _ => 0x90)
  }

  lemma NopFlags()
    ensures CodeFlags(0x90) == 0
  {
  }

  lemma NopDecodes()
    ensures IsInstruction(NOP) && Accepted(NOP) && !IsRelative(NOP)
  {
    hide CodeFlags;
    NopFlags();
    assert NOP[0..] == NOP && PrefixCount(NOP) == Some(0);
  }

  lemma NopAt(a: nat)
    requires a < SPACE
    ensures InstructionAt(AllNops(), a) == Some(NOP) && Accepted(NOP)
  {
    hide CodeFlags, SizeOf, InstructionAt, IsInstruction, Accepted;
    NopDecodes();
    assert AllNops()[a..a + 1] == NOP;
    FoundAt(AllNops(), a, NOP);
  }

  lemma {:induction false} NopsMove(src: nat, buf: nat, off: nat)
    requires src + 5 <= SPACE && off < 5
    ensures BuildFrom(AllNops(), src, buf, off).Built? && BuildFrom(AllNops(), src, buf, off).len == 5
    decreases 5 - off
  {
    hide CodeFlags, SizeOf, InstructionAt, IsInstruction, Accepted, BuildFrom, Move, Jump, AllNops, XCodeFlags;
    NopAt(src + off);
    TurnOn(AllNops(), src, buf, off, NOP);
    if off < 4 {
      NopsMove(src, buf, off + 1);
    }
  }

  const SETTING := Setting(AllNops(), 0x3000, 0x4000, map[0x1000 := 16])

  /** One call of set_hook splices the procedure at 0x1000. */
  lemma NopsCanBeHooked(newProc: Address) returns (worlds: seq<World>, calls: seq<Call>)
    ensures HookingRun(SETTING, worlds, calls) && |worlds| == 2
    ensures worlds[1].hooks == [HookDescriptor(Splicing, 0x1000, 0x3100, newProc, 5)]
  {
    hide BuildFrom, Jump, SizeOf, CodeFlags, AllNops, Write;
    var m, c := AllNops(), Call(0x1000, newProc, 0x3000, 0x3100);
    var t: nat := 0x1000;
    NopsMove(t, 0x3100, 0);
    NopIsOneByte(t);
    assert m[t] == m[t..t + 2][0];
    var r := SetHookOn(m, c.src, newProc, c.small, c.large);
    worlds, calls := [World(m, []), World(r.memory, [r.hook])], [c];
    assert ProperSpan(SETTING, 0x1000);
    assert Step(SETTING, worlds[0], c, worlds[1]);
  }

  lemma NopIsOneByte(a: nat)
    requires a < SPACE
    ensures SizeOf(AllNops()[a..]).Some? && SizeOf(AllNops()[a..]).value.size == 1
  {
    hide CodeFlags, SizeOf, InstructionAt, IsInstruction;
    NopAt(a);
    SeenThrough(AllNops(), a, NOP);
  }
}
