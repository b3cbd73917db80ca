/** Relative branches byte for byte: what each does where it stands, and what moving makes of it. */
module BranchBytes {
  import opened Words
  import opened OpcodeTable
  import opened OpcodeMap
  import opened Ldasm
  import opened InstructionGrammar
  import opened Memory
  import opened Trampoline

  /** CALL, JMP and the sixteen conditional jumps with a near displacement. */
  predicate NearOpcode(op: Bytes) {
    op == [0xE8] || op == [0xE9] || (|op| == 2 && op[0] == 0x0F && 0x80 <= op[1] <= 0x8F)
  }

  function Number(d: Bytes): nat
    requires |d| == 4
  {
    d[0] as int + 0x100 * d[1] as int + 0x1_0000 * d[2] as int + 0x100_0000 * d[3] as int
  }

  lemma NearDecodes(op: Bytes, disp: Bytes)
    requires NearOpcode(op) && |disp| == 4
    ensures var ins := op + disp;
      && IsInstruction(ins) && Accepted(ins) && IsRelative(ins) && !Prefixed(ins) && KeyLength(ins) == |op|
      && (IsCall(ins) <==> op == [0xE8]) && HasFlag(XCodeFlags(ins).value, OP_REL32)
      && (HasFlag(XCodeFlags(ins).value, OP_EXTENDED) <==> |op| == 2)
  {
    hide CodeFlags;
    var ins := op + disp;
    var number := OpcodeOf(ins).value.0;
    assert NearRelative(number) && !ShortRelative(number);
    FlagsByTheManual(number);
    FlagFacts(number);
    BranchDecodes(ins);
    assert ins[0..] == ins;
  }

  /** A near branch goes to its displacement behind itself; only CALL pushes, and what it pushes is the
      address behind it. */
  lemma NearBranchRuns<D>(sem: Semantics<D>, op: Bytes, disp: Bytes, at: nat, data: D)
    requires NearOpcode(op) && |disp| == 4
    ensures IsInstruction(op + disp)
    ensures var next := at + |op| + 4;
      var target := (next + Number(disp)) % 0x1_0000_0000;
      Run(sem, op + disp, at, data) ==
        if op == [0xE8] then Calls(target, next % 0x1_0000_0000, sem.effect(op, data))
        else if sem.taken(op, data) then Transfers(target, sem.effect(op, data))
        else Falls(sem.effect(op, data))
  {
    hide CodeFlags, SizeOf, IsInstruction, IsRelative, KeyLength, IsCall, Cuts;
    var ins := op + disp;
    NearDecodes(op, disp);
    PlainIsUncut(ins);
    assert ins[..|op|] == op && ins[|op|..] == disp;
    WrapAdds(Number(disp), at + |ins|);
  }

  /** Moving a near branch changes nothing but its displacement, by the distance moved. */
  lemma NearBranchMoves(op: Bytes, disp: Bytes, from: nat, to: nat) returns (moved: Bytes)
    requires NearOpcode(op) && |disp| == 4
    ensures Accepted(op + disp) && |moved| == 4 && Move(op + disp, from, to) == op + moved
    ensures Number(moved) == (Number(disp) + from - to) % 0x1_0000_0000
  {
    hide CodeFlags, SizeOf, IsInstruction, IsRelative, KeyLength, IsCall, Bytes32, Write;
    var ins := op + disp;
    NearDecodes(op, disp);
    assert ins[|op|..|op| + 4] == disp;
    moved := Bytes32(Wrap(Word32(disp) + from - to));
    WriteAtEnd(ins, |op|, moved);
    assert Write(ins, |op|, moved) == ins[..|op|] + moved && ins[..|op|] == op;
  }

  lemma ShortDecodes(op: Byte, disp: Byte)
    requires 0x70 <= op <= 0x7F || 0xE0 <= op <= 0xE3 || op == 0xEB
    ensures var ins := [op, disp];
      IsInstruction(ins) && !Accepted(ins) && IsRelative(ins) && !IsCall(ins) && !Prefixed(ins) && KeyLength(ins) == 1
  {
    hide CodeFlags, SizeOf;
    var ins := [op, disp];
    var i := Instruction([], false, op, None, None, [], [disp]);
    assert WellFormed(i) && Encode(i) == ins;
    SizeIsExact(i, []);
    assert ins + [] == ins && ins[0..] == ins;
    FlagsByTheManual(op);
    FlagFacts(op);
  }

  /** A short branch goes at most 128 bytes back or 127 on from the address behind it, and is not moved. */
  lemma ShortBranchRuns<D>(sem: Semantics<D>, op: Byte, disp: Byte, at: nat, data: D)
    requires 0x70 <= op <= 0x7F || 0xE0 <= op <= 0xE3 || op == 0xEB
    ensures IsInstruction([op, disp]) && !Accepted([op, disp])
    ensures Run(sem, [op, disp], at, data) ==
      if sem.taken([op], data)
      then Transfers((at + 2 + (if disp <= 127 then disp else disp - 256)) % 0x1_0000_0000, sem.effect([op], data))
      else Falls(sem.effect([op], data))
  {
    hide CodeFlags, SizeOf, IsInstruction, IsRelative, KeyLength, IsCall, Cuts;
    var ins := [op, disp];
    ShortDecodes(op, disp);
    PlainIsUncut(ins);
    assert ins[..1] == [op] && ins[1..] == [disp];
    WrapAdds(Signed8(disp), at + 2);
  }

  lemma CutDecodes(d0: Byte, d1: Byte)
    ensures var ins := [0x66, 0xE9, d0, d1];
      IsInstruction(ins) && Accepted(ins) && IsRelative(ins) && !IsCall(ins) && Prefixed(ins) && KeyLength(ins) == 2 && Cuts(ins)
  {
    hide CodeFlags, SizeOf;
    var ins := [0x66, 0xE9, d0, d1];
    var i := Instruction([0x66], false, 0xE9, None, None, [], [d0, d1]);
    assert WellFormed(i) && Encode(i) == ins;
    SizeIsExact(i, []);
    assert ins + [] == ins && ins[1..] == [0xE9, d0, d1];
    assert ins[..1] == [0x66];
    PrefixFlags(0x66);
  }

  /** An operand-size prefix cuts a jump's displacement to two bytes and its target to sixteen bits; it is
      moved unchanged. */
  lemma CutJumpRuns<D>(sem: Semantics<D>, d0: Byte, d1: Byte, at: nat, to: nat, data: D)
    requires sem.taken([0x66, 0xE9], data) && at + 4 < 0x1_0000_0000
    ensures var ins := [0x66, 0xE9, d0, d1];
      && IsInstruction(ins) && Accepted(ins) && Move(ins, at, to) == ins
      && Run(sem, ins, at, data) == Transfers((at + 4 + d0 as int + 0x100 * d1 as int) % 0x1_0000, sem.effect([0x66, 0xE9], data))
  {
    hide CodeFlags, SizeOf, IsInstruction, IsRelative, KeyLength, IsCall, Cuts, Accepted, Move, Prefixed;
    var ins := [0x66, 0xE9, d0, d1];
    CutDecodes(d0, d1);
    OthersStay(ins, at, to);
    assert ins[..2] == [0x66, 0xE9] && ins[2..] == [d0, d1];
  }
}
