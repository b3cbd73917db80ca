/** Moving the first instructions of a procedure into a trampoline: what hook_code builds, and that it
    behaves like the code it was built from. */
module Trampoline {
  import opened Words
  import opened OpcodeTable
  import opened OpcodeMap
  import opened Ldasm
  import opened InstructionGrammar
  import opened Memory

  // ----------------------------------------------------------------------------------------------
  // What hook_code builds

  /** A moved instruction, with the displacement of a plain rel32 branch corrected for the distance. */
  function Relocated(ins: Bytes, flags: nat, from: nat, to: nat): (r: Bytes)
    ensures |r| == |ins|
  {
    var at := if HasFlag(flags, OP_EXTENDED) then 2 else 1;
    if HasFlag(flags, OP_REL32) && at + 4 <= |ins|
    then Write(ins, at, Bytes32(Wrap(Word32(ins[at..at + 4]) + from - to)))
    else ins
  }

  /** The trampoline from instruction offset `off` on and the number of bytes moved in all; or the reason
      there is none: a short branch, with the number of bytes looked at, or bytes that cannot be read. */
  datatype Build = Built(code: Bytes, len: nat) | ShortBranch(len: nat) | Unreadable

  function BuildFrom(m: Bytes, src: nat, buf: nat, off: nat): (r: Build)
    requires src + off <= |m| && off < 5
    ensures r.Built? ==> off < r.len && 5 <= r.len && src + r.len <= |m| && |r.code| == r.len - off + 5
    ensures r.ShortBranch? ==> off <= r.len && src + r.len <= |m|
    decreases 5 - off
  {
    var code := m[src + off..];
    var size, flags := SizeOf(code), XCodeFlags(code);
    if size.None? || flags.None? || size.value.size > |code| then Unreadable
    else if HasFlag(flags.value, OP_REL8) then ShortBranch(off + size.value.size)
    else
      SizeIsBounded(code);
      var n := size.value.size;
      var piece := Relocated(code[..n], flags.value, src + off, buf + off);
      if off + n >= 5 then Built(piece + Jump(buf + off + n, src + off + n), off + n)
      else match BuildFrom(m, src, buf, off + n)
        case Built(rest, len) => Built(piece + rest, len)
        case refused => refused
  }

  // ----------------------------------------------------------------------------------------------
  // Control flow of single instructions

  /** One instruction: decoded from its own bytes to its own length. */
  predicate IsInstruction(ins: Bytes) {
    SizeOf(ins).Some? && SizeOf(ins).value.size == |ins|
  }

  predicate Prefixed(ins: Bytes)
    requires IsInstruction(ins)
  {
    SizeOf(ins).value.opcode > 0
  }

  function Opcode(ins: Bytes): (r: (nat, nat))
    requires IsInstruction(ins)
    ensures r.0 < 0x200 && 1 <= r.1 <= 2 && SizeOf(ins).value.opcode + r.1 <= |ins|
  {
    OpcodeOf(ins[SizeOf(ins).value.opcode..]).value
  }

  /** A branch with a displacement, by the processor manual. */
  predicate IsRelative(ins: Bytes)
    requires IsInstruction(ins)
  {
    NearRelative(Opcode(ins).0) || ShortRelative(Opcode(ins).0)
  }

  /** How many bytes of a relative branch come before its displacement. */
  function KeyLength(ins: Bytes): (r: nat)
    requires IsInstruction(ins)
    ensures r <= |ins|
  {
    SizeOf(ins).value.opcode + Opcode(ins).1
  }

  predicate IsCall(ins: Bytes)
    requires IsInstruction(ins)
  {
    Opcode(ins).0 == 0xE8
  }

  /** An operand-size prefix cuts the targets of relative branches to sixteen bits. */
  predicate Cuts(ins: Bytes)
    requires IsInstruction(ins)
  {
    0x66 in ins[..SizeOf(ins).value.opcode]
  }

  /** The displacement as a number; the sign of a two-byte one, which only a cut branch has, does not
      matter. */
  function Distance(disp: Bytes): int {
    if |disp| == 4 then Word32(disp)
    else if |disp| == 1 then Signed8(disp[0])
    else if |disp| == 2 then disp[0] as int + 0x100 * disp[1] as int
    else 0
  }

  /** Where a branch goes, given the address behind it. */
  function BranchTarget(disp: Bytes, next: Address, cuts: bool): Address {
    if cuts then (next + Distance(disp)) % 0x1_0000 else Wrap(next + Distance(disp))
  }

  /** What an instruction other than a relative branch does to the flow of control: nothing, a jump, or a
      jump that pushes the address behind it, as CALL through a register or memory does. */
  datatype Control = Stays | JumpsTo(target: Address) | CallsTo(target: Address)

  /** What instructions do apart from relative branching.  Nothing is assumed about it: `effect` is the
      change of the machine's data, `taken` whether a relative branch is taken, `control` the absolute
      transfers.  A relative branch is known by its bytes without the displacement. */
  datatype Semantics<!D> = Semantics(effect: (Bytes, D) -> D, taken: (Bytes, D) -> bool, control: (Bytes, D) -> Control)

  datatype Outcome<D> = Falls(data: D) | Transfers(target: Address, data: D) | Calls(target: Address, ret: Address, data: D)

  function Run<D>(sem: Semantics<D>, ins: Bytes, at: nat, data: D): Outcome<D>
    requires IsInstruction(ins)
  {
    var next := Wrap(at + |ins|);
    if IsRelative(ins) then
      var key, target := ins[..KeyLength(ins)], BranchTarget(ins[KeyLength(ins)..], next, Cuts(ins));
      if IsCall(ins) then Calls(target, next, sem.effect(key, data))
      else if sem.taken(key, data) then Transfers(target, sem.effect(key, data))
      else Falls(sem.effect(key, data))
    else match sem.control(ins, data)
      case Stays => Falls(sem.effect(ins, data))
      case JumpsTo(t) => Transfers(t, sem.effect(ins, data))
      case CallsTo(t) => Calls(t, next, sem.effect(ins, data))
  }

  /** The same outcome at the moved place: a call pushes the address behind the moved instruction. */
  function Moved<D>(o: Outcome<D>, from: int, to: int): Outcome<D> {
    match o
    case Calls(t, ret, d) => Calls(t, Wrap(ret - from + to), d)
    case _ => o
  }

  // ----------------------------------------------------------------------------------------------
  // One moved instruction

  /** hook_code takes the instruction: its first byte does not say rel8. */
  predicate Accepted(ins: Bytes) {
    IsInstruction(ins) && XCodeFlags(ins).Some? && !HasFlag(XCodeFlags(ins).value, OP_REL8)
  }

  function Move(ins: Bytes, from: nat, to: nat): (r: Bytes)
    requires Accepted(ins)
    ensures |r| == |ins|
  {
    Relocated(ins, XCodeFlags(ins).value, from, to)
  }

  lemma InstructionStart(ins: Bytes)
    requires IsInstruction(ins)
    ensures var n := SizeOf(ins).value.opcode;
            && n < |ins| && !IsPrefix(ins[n]) && (n > 0 ==> IsPrefix(ins[0]))
            && PrefixCount(ins) == Some(n) && BodySize(ins[n..], 0x66 in ins[..n], 0x67 in ins[..n]) == Some(|ins| - n)
  {
    hide CodeFlags, BodySize, IsPrefix, PrefixCount;
  }

  lemma PrefixFlags(b: Byte)
    requires IsPrefix(b)
    ensures b != 0x0F && CodeFlags(b) == OP_PREFIX
  {
    hide CodeFlags;
    PrefixesAreFlagged(b);
  }

  /** x_code_flags sees the opcode's own flags if there is no prefix, and none of the branch flags
      otherwise. */
  lemma FlagsSeen(ins: Bytes)
    requires IsInstruction(ins) && XCodeFlags(ins).Some?
    ensures !Prefixed(ins) ==>
      XCodeFlags(ins).value == CodeFlags(Opcode(ins).0) + (if Opcode(ins).1 == 2 then OP_EXTENDED else 0)
    ensures Prefixed(ins) ==> !HasFlag(XCodeFlags(ins).value, OP_REL32) && !HasFlag(XCodeFlags(ins).value, OP_REL8)
  {
    hide CodeFlags, BodySize, SizeOf, IsPrefix;
    InstructionStart(ins);
    if Prefixed(ins) {
      PrefixFlags(ins[0]);
    } else {
      assert ins[0..] == ins;
    }
  }

  /** A rel32 branch without prefix: the opcode, then a four-byte displacement. */
  lemma BranchDecodes(code: Bytes)
    requires code != [] && !IsPrefix(code[0]) && OpcodeOf(code).Some?
    requires HasFlag(CodeFlags(OpcodeOf(code).value.0), OP_REL32)
    ensures SizeOf(code) == Some(Decoded(OpcodeOf(code).value.1 + 4, 0))
    ensures !HasFlag(CodeFlags(OpcodeOf(code).value.0), OP_REL8)
  {
    hide CodeFlags, IsPrefix;
    FlagFacts(OpcodeOf(code).value.0);
    assert code[0..] == code;
  }

  lemma PlainBranch(ins: Bytes)
    requires Accepted(ins) && IsRelative(ins) && !Prefixed(ins)
    ensures HasFlag(XCodeFlags(ins).value, OP_REL32)
    ensures HasFlag(XCodeFlags(ins).value, OP_EXTENDED) <==> KeyLength(ins) == 2
    ensures |ins| == KeyLength(ins) + 4 && OpcodeOf(ins) == Some(Opcode(ins)) && !IsPrefix(ins[0])
  {
    hide CodeFlags, IsPrefix, SizeOf, BodySize;
    FlagsSeen(ins);
    InstructionStart(ins);
    assert ins[0..] == ins;
    FlagFacts(Opcode(ins).0);
    FlagsByTheManual(Opcode(ins).0);
    BranchDecodes(ins);
  }

  lemma PlainBranchMoves(ins: Bytes, from: nat, to: nat)
    requires Accepted(ins) && IsRelative(ins) && !Prefixed(ins)
    ensures var k, moved := KeyLength(ins), Move(ins, from, to);
            && k + 4 == |ins| == |moved| && moved[..k] == ins[..k]
            && moved[k..] == Bytes32(Wrap(Word32(ins[k..]) + from - to))
            && IsInstruction(moved) && IsRelative(moved) && !Prefixed(moved) && KeyLength(moved) == k
            && (IsCall(moved) <==> IsCall(ins))
  {
    hide CodeFlags, IsPrefix, SizeOf, BodySize, Bytes32, Word32, Wrap, Write;
    PlainBranch(ins);
    var k, moved := KeyLength(ins), Move(ins, from, to);
    assert ins[k..k + 4] == ins[k..];
    assert moved == Write(ins, k, Bytes32(Wrap(Word32(ins[k..]) + from - to)));
    WriteAtEnd(ins, k, Bytes32(Wrap(Word32(ins[k..]) + from - to)));
    SameOpcode(ins, moved, k);
    BranchDecodes(ins);
    BranchDecodes(moved);
    assert moved[0..] == moved;
  }

  lemma WriteAtEnd(m: Bytes, k: nat, b: Bytes)
    requires k + |b| == |m|
    ensures Write(m, k, b)[..k] == m[..k] && Write(m, k, b)[k..] == b
  {
    var w := Write(m, k, b);
    assert w == m[..k] + b;
  }

  /** An opcode is known by its own bytes. */
  lemma SameOpcode(ins: Bytes, other: Bytes, k: nat)
    requires ins != [] && OpcodeOf(ins).Some? && OpcodeOf(ins).value.1 == k && k <= |other| && other[..k] == ins[..k]
    ensures other != [] && other[0] == ins[0] && OpcodeOf(other) == OpcodeOf(ins)
  {
    assert other[0] == other[..k][0] && ins[0] == ins[..k][0];
    if k == 2 {
      assert other[1] == other[..k][1] && ins[1] == ins[..k][1];
    }
  }

  lemma TargetKept(disp: Address, from: nat, to: nat, n: nat)
    ensures Wrap(Wrap(to + n) + Wrap(disp + from - to)) == Wrap(Wrap(from + n) + disp)
  {
    WrapAdds(Wrap(to + n), disp + from - to);
    WrapAdds(disp + from - to, to + n);
    WrapAdds(disp, from + n);
  }

  lemma ReturnMoves(from: nat, to: nat, n: nat)
    ensures Wrap(Wrap(from + n) - from + to) == Wrap(to + n)
  {
    WrapAdds(to - from, from + n);
  }

  lemma OthersStay(ins: Bytes, from: nat, to: nat)
    requires Accepted(ins) && (!IsRelative(ins) || Prefixed(ins))
    ensures Move(ins, from, to) == ins
  {
    hide CodeFlags, IsPrefix, SizeOf, BodySize;
    FlagsSeen(ins);
    FlagFacts(Opcode(ins).0);
    FlagsByTheManual(Opcode(ins).0);
  }

  /** The unchanged instruction does the same at another place: it is not a relative branch, or it is one
      that is cut to sixteen bits and moves by a multiple of 64K. */
  predicate CopiesFaithfully(ins: Bytes, from: int, to: int)
    requires IsInstruction(ins)
  {
    IsRelative(ins) ==> Cuts(ins) && (to - from) % 0x1_0000 == 0
  }

  /** hook_code leaves prefixed branches as they are. */
  predicate MovesFaithfully(ins: Bytes, from: int, to: int)
    requires IsInstruction(ins)
  {
    Prefixed(ins) ==> CopiesFaithfully(ins, from, to)
  }

  lemma ShortTargets(x: int, k: int)
    ensures (x + 0x1_0000 * k) % 0x1_0000 == x % 0x1_0000
  {
    assert (x + 0x1_0000 * k) / 0x1_0000 == x / 0x1_0000 + k;
  }

  lemma PlainIsUncut(ins: Bytes)
    requires IsInstruction(ins) && !Prefixed(ins)
    ensures !Cuts(ins)
  {
    hide CodeFlags, SizeOf;
  }

  lemma PlainBranchRuns<D>(sem: Semantics<D>, ins: Bytes, from: nat, to: nat, data: D)
    requires Accepted(ins) && IsRelative(ins) && !Prefixed(ins)
    ensures IsInstruction(Move(ins, from, to))
    ensures Run(sem, Move(ins, from, to), to, data) == Moved(Run(sem, ins, from, data), from, to)
  {
    hide CodeFlags, SizeOf, IsInstruction, IsRelative, KeyLength, IsCall, Move, Cuts, Prefixed, Word32, Wrap;
    var k, moved := KeyLength(ins), Move(ins, from, to);
    PlainBranchMoves(ins, from, to);
    PlainIsUncut(ins);
    PlainIsUncut(moved);
    TargetKept(Word32(ins[k..]), from, to, |ins|);
    ReturnMoves(from, to, |ins|);
  }

  /** Displacements of relative branches take four, two or one bytes. */
  lemma RelativeSizes(ins: Bytes)
    requires IsInstruction(ins) && IsRelative(ins)
    ensures |ins| - KeyLength(ins) == 4 || |ins| - KeyLength(ins) == 2 || |ins| - KeyLength(ins) == 1
  {
    hide CodeFlags, IsPrefix, SizeOf;
    InstructionStart(ins);
    FlagFacts(Opcode(ins).0);
    FlagsByTheManual(Opcode(ins).0);
  }

  /** A relative branch of two bytes is an opcode and a one-byte displacement. */
  lemma TwoByteBranch(ins: Bytes)
    requires IsInstruction(ins) && IsRelative(ins) && |ins| == 2
    ensures KeyLength(ins) == 1 && !Prefixed(ins) && !Cuts(ins)
  {
    hide CodeFlags, SizeOf, IsRelative, Cuts;
    RelativeSizes(ins);
    PlainIsUncut(ins);
  }

  lemma SameRemainder(a: int, b: int)
    ensures a % 0x1_0000 == b % 0x1_0000 <==> (a - b) % 0x1_0000 == 0
  {
    var k := a / 0x1_0000 - b / 0x1_0000;
    assert a - b == a % 0x1_0000 - b % 0x1_0000 + 0x1_0000 * k;
    ShortTargets(a % 0x1_0000 - b % 0x1_0000, k);
  }

  lemma NearTargets(from: nat, to: nat, n: nat, x: int)
    ensures (Wrap(to + n) + x) % 0x1_0000 == (Wrap(from + n) + x) % 0x1_0000 <==> (to - from) % 0x1_0000 == 0
  {
    SameRemainder(Wrap(to + n) + x, Wrap(from + n) + x);
    var k := 0x1_0000 * ((from + n) / SPACE - (to + n) / SPACE);
    assert Wrap(to + n) - Wrap(from + n) == to - from + 0x1_0000 * k;
    ShortTargets(to - from, k);
  }

  lemma FarTargets(from: nat, to: nat, n: nat, x: int)
    ensures Wrap(Wrap(to + n) + x) == Wrap(Wrap(from + n) + x) <==> Wrap(to) == Wrap(from)
  {
    hide Wrap;
    WrapAdds(x, to + n);
    WrapAdds(x, from + n);
    WrapMoves(to, n + x);
    WrapMoves(from, n + x);
  }

  /** Adding modulo 2^32 can be undone. */
  lemma WrapMoves(a: int, y: int)
    ensures Wrap(a + y) == Wrap(y + Wrap(a)) && Wrap(a) == Wrap(-y + Wrap(a + y))
  {
    hide Wrap;
    WrapAdds(y, a);
    WrapAdds(-y, a + y);
  }

  lemma SameWraps(from: nat, to: nat)
    requires Wrap(from) == Wrap(to)
    ensures (to - from) % 0x1_0000 == 0
  {
    assert to - from == 0x1_0000 * (0x1_0000 * (to / SPACE - from / SPACE));
    ShortTargets(0, 0x1_0000 * (to / SPACE - from / SPACE));
  }

  lemma UnmovedTargets(disp: Bytes, from: nat, to: nat, n: nat, cuts: bool)
    ensures BranchTarget(disp, Wrap(to + n), cuts) == BranchTarget(disp, Wrap(from + n), cuts)
      <==> (if cuts then (to - from) % 0x1_0000 == 0 else Wrap(to) == Wrap(from))
  {
    hide Wrap, Distance;
    if cuts {
      NearTargets(from, to, n, Distance(disp));
    } else {
      FarTargets(from, to, n, Distance(disp));
    }
  }

  /** An instruction copied unchanged keeps its meaning exactly if it copies faithfully. */
  lemma CopiedRuns<D>(sem: Semantics<D>, ins: Bytes, from: nat, to: nat, data: D)
    requires IsInstruction(ins)
    requires CopiesFaithfully(ins, from, to) || IsCall(ins) || sem.taken(ins[..KeyLength(ins)], data)
    ensures Run(sem, ins, to, data) == Moved(Run(sem, ins, from, data), from, to)
      <==> CopiesFaithfully(ins, from, to) || Wrap(from) == Wrap(to)
  {
    hide CodeFlags, SizeOf, IsInstruction, IsRelative, KeyLength, IsCall, BranchTarget, Cuts;
    ReturnMoves(from, to, |ins|);
    if IsRelative(ins) {
      UnmovedTargets(ins[KeyLength(ins)..], from, to, |ins|, Cuts(ins));
      if Wrap(from) == Wrap(to) {
        SameWraps(from, to);
      }
    }
  }

  lemma MovedDecodes(ins: Bytes, from: nat, to: nat)
    requires Accepted(ins)
    ensures IsInstruction(Move(ins, from, to))
  {
    hide CodeFlags, SizeOf, IsRelative, Move, Prefixed;
    if IsRelative(ins) && !Prefixed(ins) {
      PlainBranchMoves(ins, from, to);
    } else {
      OthersStay(ins, from, to);
    }
  }

  /** An accepted instruction keeps its meaning exactly if it moves faithfully: unprefixed branches keep
      their targets modulo 2^32, and only a prefixed relative branch can lose its target. */
  lemma MovedRuns<D>(sem: Semantics<D>, ins: Bytes, from: nat, to: nat, data: D)
    requires Accepted(ins)
    requires MovesFaithfully(ins, from, to) || IsCall(ins) || sem.taken(ins[..KeyLength(ins)], data)
    ensures IsInstruction(Move(ins, from, to))
    ensures Run(sem, Move(ins, from, to), to, data) == Moved(Run(sem, ins, from, data), from, to)
      <==> MovesFaithfully(ins, from, to) || Wrap(from) == Wrap(to)
  {
    hide CodeFlags, SizeOf, IsInstruction, IsRelative, KeyLength, IsCall, Move, Prefixed, Run, Moved, CopiesFaithfully;
    MovedDecodes(ins, from, to);
    if IsRelative(ins) && !Prefixed(ins) {
      PlainBranchRuns(sem, ins, from, to, data);
    } else {
      OthersStay(ins, from, to);
      if !IsRelative(ins) {
        NotRelative(ins, from, to);
      }
      CopiedRuns(sem, ins, from, to, data);
    }
  }

  lemma NotRelative(ins: Bytes, from: nat, to: nat)
    requires IsInstruction(ins) && !IsRelative(ins)
    ensures CopiesFaithfully(ins, from, to)
  {
    hide CodeFlags, SizeOf, IsInstruction, IsRelative;
  }

  const PREFIXED_JUMP: Bytes := [0x2E, 0xE9, 0x05, 0x00, 0x00, 0x00]

  lemma PrefixedJumpDecodes()
    ensures var j := PREFIXED_JUMP;
      IsInstruction(j) && Prefixed(j) && IsRelative(j) && !IsCall(j) && !Cuts(j) && KeyLength(j) == 2 && Accepted(j)
  {
    hide CodeFlags;
    NearJumpFlags();
    PrefixesAreFlagged(0x2E);
    var j := PREFIXED_JUMP;
    assert j[1..] == [0xE9, 0x05, 0x00, 0x00, 0x00] && j[1..][0..] == j[1..];
    assert PrefixCount(j[1..]) == Some(0);
    assert j[..1] == [0x2E];
  }

  lemma NearJumpFlags()
    ensures CodeFlags(0xE9) == 0x50
  {
  }

  /** For example a jump with a segment prefix: hook_code takes it, leaves its displacement alone, and it
      goes astray by the distance moved. */
  lemma PrefixedJumpGoesAstray<D>(sem: Semantics<D>, data: D)
    requires sem.taken([0x2E, 0xE9], data)
    ensures Accepted(PREFIXED_JUMP) && Move(PREFIXED_JUMP, 0x1000, 0x2000) == PREFIXED_JUMP
    ensures IsInstruction(PREFIXED_JUMP)
    ensures Run(sem, PREFIXED_JUMP, 0x1000, data) == Transfers(0x100B, sem.effect([0x2E, 0xE9], data))
    ensures Run(sem, PREFIXED_JUMP, 0x2000, data) == Transfers(0x200B, sem.effect([0x2E, 0xE9], data))
  {
    hide CodeFlags, SizeOf, IsInstruction, IsRelative, KeyLength, IsCall, Accepted, Move, Prefixed, Cuts;
    PrefixedJumpDecodes();
    OthersStay(PREFIXED_JUMP, 0x1000, 0x2000);
    assert PREFIXED_JUMP[..2] == [0x2E, 0xE9] && PREFIXED_JUMP[2..] == [0x05, 0x00, 0x00, 0x00];
  }

  // ----------------------------------------------------------------------------------------------
  // The whole trampoline

  /** The instruction at an address; None if its bytes run past the end of memory. */
  function InstructionAt(m: Bytes, a: nat): (r: Option<Bytes>)
    ensures r.Some? ==> a + |r.value| <= |m| && r.value == m[a..a + |r.value|] && IsInstruction(r.value) && |r.value| >= 1
  {
    if a > |m| then None
    else
      var code := m[a..];
      if SizeOf(code).None? || SizeOf(code).value.size > |code| then None
      else
        var n := SizeOf(code).value.size;
        SizeIsBounded(code);
        DecodingIsLocal(code, code[..n]);
        Some(code[..n])
  }

  /** How a stretch of code is left: at its end, by a transfer or call out of one of its instructions, or
      by meeting bytes that are no instruction. */
  datatype Exit<D> = Through(data: D) | Out(outcome: Outcome<D>) | Lost

  /** Execution from `base + off` up to `base + limit`, instruction by instruction. */
  function Walk<D>(sem: Semantics<D>, m: Bytes, base: nat, off: nat, limit: nat, data: D): Exit<D>
    decreases limit - off
  {
    if off >= limit then Through(data)
    else match InstructionAt(m, base + off)
      case None => Lost
      case Some(ins) =>
        match Run(sem, ins, base + off, data)
        case Falls(d) => Walk(sem, m, base, off + |ins|, limit, d)
        case o => Out(o)
  }

  /** The offsets at which instructions begin. */
  function Boundaries(m: Bytes, base: nat, off: nat, limit: nat): seq<nat>
    decreases limit - off
  {
    if off >= limit then []
    else match InstructionAt(m, base + off)
      case None => [off]
      case Some(ins) => [off] + Boundaries(m, base, off + |ins|, limit)
  }

  /** No instruction of the stretch loses its meaning on the way from `src` to `buf`. */
  predicate AllMoveFaithfully(m: Bytes, src: nat, buf: nat, off: nat, limit: nat)
    decreases limit - off
  {
    off < limit ==>
      var ins := InstructionAt(m, src + off);
      ins.Some? && MovesFaithfully(ins.value, src, buf) && AllMoveFaithfully(m, src, buf, off + |ins.value|, limit)
  }

  /** An unconditional near jump is always taken and changes nothing else. */
  ghost predicate JumpIsPlain<D(!new)>(sem: Semantics<D>) {
    forall d :: sem.taken([0xE9], d) && sem.effect([0xE9], d) == d
  }

  /** What the trampoline must do, given what the moved code did: leave the same way, or end up behind the
      moved code. */
  function Image<D>(e: Exit<D>, src: nat, buf: nat, len: nat): Exit<D> {
    match e
    case Through(d) => Out(Transfers(Wrap(src + len), d))
    case Out(o) => Out(Moved(o, src, buf))
    case Lost => Lost
  }

  lemma FlagsAreLocal(code: Bytes)
    requires SizeOf(code).Some? && SizeOf(code).value.size <= |code|
    ensures XCodeFlags(code[..SizeOf(code).value.size]) == XCodeFlags(code)
    ensures XCodeFlags(code).Some?
  {
    hide CodeFlags, IsPrefix;
    EscapeIsNoPrefix();
    SizeIsBounded(code);
    assert code[0..] == code;
  }

  /** The decoder and x_code_flags see an instruction through the bytes that follow it. */
  lemma SeenThrough(m: Bytes, a: nat, ins: Bytes)
    requires InstructionAt(m, a) == Some(ins)
    ensures a <= |m| && SizeOf(m[a..]).Some? && SizeOf(m[a..]).value.size == |ins|
    ensures XCodeFlags(m[a..]) == XCodeFlags(ins)
  {
    hide CodeFlags, SizeOf, XCodeFlags, IsInstruction;
    FlagsAreLocal(m[a..]);
  }

  /** x_code_flags reports a rel32 branch only where its displacement really follows the opcode. */
  lemma RoomForBranch(ins: Bytes)
    requires Accepted(ins) && HasFlag(XCodeFlags(ins).value, OP_REL32)
    ensures IsRelative(ins) && !Prefixed(ins)
    ensures (if HasFlag(XCodeFlags(ins).value, OP_EXTENDED) then 2 else 1) + 4 <= |ins|
  {
    hide CodeFlags, IsPrefix, SizeOf, BodySize;
    FlagsSeen(ins);
    FlagFacts(Opcode(ins).0);
    FlagsByTheManual(Opcode(ins).0);
    PlainBranch(ins);
  }

  /** One turn of the loop looks at one whole instruction; a short branch ends it. */
  lemma TurnOn(m: Bytes, src: nat, buf: nat, off: nat, ins: Bytes)
    requires off < 5 && InstructionAt(m, src + off) == Some(ins)
    ensures src + off <= |m| && XCodeFlags(ins).Some?
    ensures BuildFrom(m, src, buf, off) ==
      if !Accepted(ins) then ShortBranch(off + |ins|)
      else if off + |ins| >= 5
      then Built(Move(ins, src + off, buf + off) + Jump(buf + off + |ins|, src + off + |ins|), off + |ins|)
      else match BuildFrom(m, src, buf, off + |ins|)
        case Built(rest, len) => Built(Move(ins, src + off, buf + off) + rest, len)
        case refused => refused
  {
    hide CodeFlags, SizeOf, IsPrefix, Relocated, Jump, XCodeFlags;
    var code := m[src + off..];
    SizeIsBounded(code);
    FlagsAreLocal(code);
  }

  lemma Turn(m: Bytes, src: nat, buf: nat, off: nat) returns (ins: Bytes)
    requires src + off <= |m| && off < 5 && !BuildFrom(m, src, buf, off).Unreadable?
    ensures InstructionAt(m, src + off) == Some(ins) && XCodeFlags(ins).Some?
    ensures BuildFrom(m, src, buf, off) ==
      if !Accepted(ins) then ShortBranch(off + |ins|)
      else if off + |ins| >= 5
      then Built(Move(ins, src + off, buf + off) + Jump(buf + off + |ins|, src + off + |ins|), off + |ins|)
      else match BuildFrom(m, src, buf, off + |ins|)
        case Built(rest, len) => Built(Move(ins, src + off, buf + off) + rest, len)
        case refused => refused
  {
    ins := TurnReads(m, src, buf, off);
    TurnOn(m, src, buf, off, ins);
  }

  lemma TurnReads(m: Bytes, src: nat, buf: nat, off: nat) returns (ins: Bytes)
    requires src + off <= |m| && off < 5 && !BuildFrom(m, src, buf, off).Unreadable?
    ensures InstructionAt(m, src + off) == Some(ins)
  {
    hide CodeFlags, SizeOf, IsPrefix, Relocated, Jump, XCodeFlags;
    ins := InstructionAt(m, src + off).value;
  }

  /** One turn of the loop takes one whole instruction. */
  lemma OneTurn(m: Bytes, src: nat, buf: nat, off: nat) returns (ins: Bytes, rest: Bytes)
    requires src + off <= |m| && off < 5 && BuildFrom(m, src, buf, off).Built?
    ensures InstructionAt(m, src + off) == Some(ins) && Accepted(ins)
    ensures var b := BuildFrom(m, src, buf, off);
      && b.code == Move(ins, src + off, buf + off) + rest
      && (if off + |ins| >= 5 then rest == Jump(buf + off + |ins|, src + off + |ins|) && b.len == off + |ins|
          else BuildFrom(m, src, buf, off + |ins|) == Built(rest, b.len))
  {
    hide CodeFlags, SizeOf, IsPrefix, Relocated, Jump, Accepted, Move, BuildFrom, InstructionAt;
    ins := Turn(m, src, buf, off);
    var next := off + |ins|;
    rest := if next >= 5 then Jump(buf + next, src + next) else BuildFrom(m, src, buf, next).code;
  }

  /** An instruction found in memory is found by its bytes. */
  lemma FoundAt(m: Bytes, a: nat, ins: Bytes)
    requires a + |ins| <= |m| && m[a..a + |ins|] == ins && IsInstruction(ins)
    ensures InstructionAt(m, a) == Some(ins)
  {
    hide CodeFlags, SizeOf;
    assert m[a..][..|ins|] == ins;
    DecodingIsLocal(ins, m[a..]);
  }

  lemma JumpDecodes(from: int, to: int)
    ensures var j := Jump(from, to);
            && IsInstruction(j) && IsRelative(j) && !IsCall(j) && KeyLength(j) == 1 && Accepted(j) && !Prefixed(j)
            && j[..1] == [0xE9] && Word32(j[1..]) == Wrap(to - from - 5)
  {
    hide Bytes32, Word32;
    var j := Jump(from, to);
    assert j[0..] == j && j[1..] == Bytes32(Wrap(to - from - 5));
    assert CodeFlags(0xE9) == 0x50;
    hide CodeFlags;
    BranchDecodes(j);
  }

  lemma JumpRuns<D(!new)>(sem: Semantics<D>, from: nat, to: nat, data: D)
    requires JumpIsPlain(sem)
    ensures IsInstruction(Jump(from, to))
    ensures Run(sem, Jump(from, to), from, data) == Transfers(Wrap(to), data)
  {
    JumpDecodes(from, to);
    PlainIsUncut(Jump(from, to));
    hide CodeFlags, SizeOf, IsInstruction, IsRelative, KeyLength, IsCall, Jump, Word32, Wrap, Cuts;
    assert |Jump(from, to)| == 5;
    WrapAdds(from + 5, to - from - 5);
    WrapAdds(Wrap(to - from - 5), from + 5);
  }

  /** The trampoline's code from `off` on lies in memory at its buffer. */
  predicate Placed(m: Bytes, m': Bytes, src: nat, buf: nat, off: nat) {
    && src + off <= |m| && off < 5
    && var b := BuildFrom(m, src, buf, off);
       b.Built? && buf + b.len + 5 <= |m'| && m'[buf + off..buf + b.len + 5] == b.code
  }

  /** A moved instruction is found at its new place, and the rest of the trampoline behind it. */
  lemma PlacedTurn(m: Bytes, m': Bytes, src: nat, buf: nat, off: nat) returns (ins: Bytes, moved: Bytes, len: nat)
    requires Placed(m, m', src, buf, off)
    ensures Accepted(ins) && InstructionAt(m, src + off) == Some(ins) && |ins| >= 1
    ensures moved == Move(ins, src + off, buf + off) && InstructionAt(m', buf + off) == Some(moved)
    ensures len == BuildFrom(m, src, buf, off).len > off
    ensures var next := off + |ins|;
      if next < 5 then Placed(m, m', src, buf, next) && BuildFrom(m, src, buf, next).len == len
      else len == next && IsInstruction(Jump(buf + next, src + next)) && InstructionAt(m', buf + next) == Some(Jump(buf + next, src + next))
  {
    hide CodeFlags, SizeOf, IsInstruction, IsRelative, Relocated, Accepted, Jump, InstructionAt, BuildFrom, Move;
    len := BuildFrom(m, src, buf, off).len;
    var rest: Bytes;
    ins, rest := OneTurn(m, src, buf, off);
    var next := off + |ins|;
    moved := Move(ins, src + off, buf + off);
    MovedDecodes(ins, src + off, buf + off);
    TurnPlaced(m', buf, off, moved, rest);
    FoundAt(m', buf + off, moved);
    if next >= 5 {
      JumpDecodes(buf + next, src + next);
      FoundAt(m', buf + next, rest);
    }
  }

  /** Placed at its buffer, the trampoline does what the moved code did and then goes on behind it. */
  lemma {:induction false} TrampolineRuns<D(!new)>(sem: Semantics<D>, m: Bytes, m': Bytes, src: nat, buf: nat, off: nat, data: D)
    requires Placed(m, m', src, buf, off) && JumpIsPlain(sem)
    requires AllMoveFaithfully(m, src, buf, off, BuildFrom(m, src, buf, off).len)
    ensures var len := BuildFrom(m, src, buf, off).len;
      && Walk(sem, m, src, off, len, data) != Lost
      && Walk(sem, m', buf, off, len + 5, data) == Image(Walk(sem, m, src, off, len, data), src, buf, len)
    decreases 5 - off
  {
    hide CodeFlags, SizeOf, IsInstruction, IsRelative, Accepted, Jump, InstructionAt, BuildFrom, Move, KeyLength,
      MovesFaithfully, Run, IsCall, Walk, Wrap, Placed;
    var ins, moved, len := PlacedTurn(m, m', src, buf, off);
    var next := off + |ins|;
    SameDistance(ins, src, buf, off);
    MovedRuns(sem, ins, src + off, buf + off, data);
    WalkStep(sem, m, src, off, len, data, ins);
    WalkStep(sem, m', buf, off, len + 5, data, moved);
    match Run(sem, ins, src + off, data)
    case Falls(d) =>
      if next < 5 {
        TrampolineRuns(sem, m, m', src, buf, next, d);
      } else {
        JumpRuns(sem, buf + next, src + next, d);
        WalkStep(sem, m', buf, next, len + 5, d, Jump(buf + next, src + next));
        WalkEnds(sem, m, src, len, len, d);
      }
    case Transfers(_, _) =>
    case Calls(_, _, _) =>
  }

  lemma WalkStep<D>(sem: Semantics<D>, m: Bytes, base: nat, off: nat, limit: nat, data: D, ins: Bytes)
    requires off < limit && InstructionAt(m, base + off) == Some(ins)
    ensures Walk(sem, m, base, off, limit, data) ==
      match Run(sem, ins, base + off, data)
      case Falls(d) => Walk(sem, m, base, off + |ins|, limit, d)
      case o => Out(o)
  {
    hide IsInstruction, Run, SizeOf, InstructionAt;
  }

  lemma WalkEnds<D>(sem: Semantics<D>, m: Bytes, base: nat, off: nat, limit: nat, data: D)
    requires off >= limit
    ensures Walk(sem, m, base, off, limit, data) == Through(data)
  {
  }

  lemma SameDistance(ins: Bytes, src: nat, buf: nat, off: nat)
    requires IsInstruction(ins)
    ensures MovesFaithfully(ins, src + off, buf + off) == MovesFaithfully(ins, src, buf)
  {
    hide CodeFlags, SizeOf, IsInstruction, IsRelative, KeyLength;
  }

  lemma TurnPlaced(m: Bytes, buf: nat, off: nat, piece: Bytes, rest: Bytes)
    requires buf + off + |piece| + |rest| <= |m| && m[buf + off..buf + off + |piece| + |rest|] == piece + rest
    ensures m[buf + off..buf + off + |piece|] == piece
    ensures m[buf + off + |piece|..buf + off + |piece| + |rest|] == rest
  {
    var s := m[buf + off..buf + off + |piece| + |rest|];
    assert s[..|piece|] == piece && s[|piece|..] == rest;
  }

  /** The trampoline has the moved code's instruction boundaries, and then those of one five-byte jump. */
  lemma {:induction false} TrampolineBoundaries(m: Bytes, m': Bytes, src: nat, buf: nat, off: nat)
    requires Placed(m, m', src, buf, off)
    ensures var len := BuildFrom(m, src, buf, off).len;
      Boundaries(m', buf, off, len + 5) == Boundaries(m, src, off, len) + [len]
    decreases 5 - off
  {
    hide CodeFlags, SizeOf, IsInstruction, Accepted, Jump, InstructionAt, BuildFrom, Move, Boundaries, Placed;
    var ins, moved, len := PlacedTurn(m, m', src, buf, off);
    var next := off + |ins|;
    BoundaryStep(m, src, off, len, ins);
    BoundaryStep(m', buf, off, len + 5, moved);
    if next < 5 {
      TrampolineBoundaries(m, m', src, buf, next);
      Regroup(off, Boundaries(m, src, next, len), len);
    } else {
      BoundaryStep(m', buf, next, len + 5, Jump(buf + next, src + next));
      BoundariesEnd(m', buf, len + 5);
      BoundariesEnd(m, src, len);
      Regroup(off, [], len);
    }
  }

  lemma BoundaryStep(m: Bytes, base: nat, off: nat, limit: nat, ins: Bytes)
    requires off < limit && InstructionAt(m, base + off) == Some(ins)
    ensures Boundaries(m, base, off, limit) == [off] + Boundaries(m, base, off + |ins|, limit)
  {
    hide IsInstruction, SizeOf, InstructionAt;
  }

  lemma Regroup(x: nat, s: seq<nat>, y: nat)
    ensures [x] + (s + [y]) == ([x] + s) + [y]
  {
  }

  lemma BoundariesEnd(m: Bytes, base: nat, limit: nat)
    ensures Boundaries(m, base, limit, limit) == []
  {
  }

  /** An unprefixed branch with a one-byte displacement. */
  predicate ShortBranchAt(m: Bytes, a: nat) {
    InstructionAt(m, a).Some? && !Prefixed(InstructionAt(m, a).value) && ShortRelative(Opcode(InstructionAt(m, a).value).0)
  }

  lemma RefusedInstruction(m: Bytes, a: nat)
    requires InstructionAt(m, a).Some? && XCodeFlags(InstructionAt(m, a).value).Some?
    ensures Accepted(InstructionAt(m, a).value) <==> !ShortBranchAt(m, a)
  {
    hide CodeFlags, SizeOf, InstructionAt, ShortRelative, NearRelative;
    var ins := InstructionAt(m, a).value;
    FlagsSeen(ins);
    FlagFacts(Opcode(ins).0);
    FlagsByTheManual(Opcode(ins).0);
  }

  /** hook_code refuses code exactly if one of the instructions that begin within its first five bytes is an
      unprefixed short branch; otherwise it moves these instructions and no others. */
  lemma {:induction false} BuildOutcome(m: Bytes, src: nat, buf: nat, off: nat)
    requires src + off <= |m| && off < 5 && !BuildFrom(m, src, buf, off).Unreadable?
    ensures BuildFrom(m, src, buf, off).ShortBranch? <==> exists k :: k in Boundaries(m, src, off, 5) && ShortBranchAt(m, src + k)
    ensures BuildFrom(m, src, buf, off).Built? ==>
      Boundaries(m, src, off, BuildFrom(m, src, buf, off).len) == Boundaries(m, src, off, 5)
    decreases 5 - off
  {
    hide CodeFlags, SizeOf, IsInstruction, Accepted, Jump, InstructionAt, BuildFrom, Move, Boundaries, ShortBranchAt;
    var ins := Turn(m, src, buf, off);
    var b := BuildFrom(m, src, buf, off);
    RefusedInstruction(m, src + off);
    BoundaryStep(m, src, off, 5, ins);
    var rest := Boundaries(m, src, off + |ins|, 5);
    assert forall k :: k in Boundaries(m, src, off, 5) <==> k == off || k in rest;
    if !Accepted(ins) {
      assert off in Boundaries(m, src, off, 5) && ShortBranchAt(m, src + off);
    } else if off + |ins| < 5 {
      BuildOutcome(m, src, buf, off + |ins|);
      if b.ShortBranch? {
        var k :| k in rest && ShortBranchAt(m, src + k);
        assert k in Boundaries(m, src, off, 5);
      }
    } else {
      BoundariesEnd(m, src, b.len);
      NoBoundaries(m, src, off + |ins|, 5);
    }
    if b.Built? {
      BoundaryStep(m, src, off, b.len, ins);
    }
  }

  lemma NoBoundaries(m: Bytes, base: nat, off: nat, limit: nat)
    requires off >= limit
    ensures Boundaries(m, base, off, limit) == []
  {
  }

  /** Every instruction that begins in the stretch has at most this many prefixes. */
  predicate PrefixesAtMost(m: Bytes, base: nat, off: nat, limit: nat, most: nat)
    decreases limit - off
  {
    off < limit && InstructionAt(m, base + off).Some? ==>
      var ins := InstructionAt(m, base + off).value;
      SizeOf(ins).value.opcode <= most && PrefixesAtMost(m, base, off + |ins|, limit, most)
  }

  /** The last moved instruction starts within the first five bytes, so the trampoline and its closing jump
      take at most twenty bytes more than that instruction has prefixes: 64 for up to 44, 24 for up to
      four. */
  lemma {:induction false} TrampolineFits(m: Bytes, src: nat, buf: nat, off: nat, most: nat)
    requires src + off <= |m| && off < 5
    requires var b := BuildFrom(m, src, buf, off); b.Built? && PrefixesAtMost(m, src, off, b.len, most)
    ensures off + |BuildFrom(m, src, buf, off).code| <= 20 + most
    decreases 5 - off
  {
    hide CodeFlags, SizeOf, IsRelative, Relocated, Jump, InstructionAt, BuildFrom, Move;
    var ins, rest := OneTurn(m, src, buf, off);
    SizeIsBounded(ins);
    if off + |ins| < 5 {
      TrampolineFits(m, src, buf, off + |ins|, most);
    }
  }

  /** Two memories hold the same bytes from a up to b. */
  predicate Agree(m: Bytes, m': Bytes, a: nat, b: nat) {
    a <= b <= |m| && b <= |m'| && m[a..b] == m'[a..b]
  }

  /** What is built depends on nothing but the moved code. */
  lemma {:induction false} BuildIsLocal(m: Bytes, m': Bytes, src: nat, buf: nat, off: nat, len: nat)
    requires src + off <= |m| && off < 5 && BuildFrom(m, src, buf, off).Built? && BuildFrom(m, src, buf, off).len == len
    requires Agree(m, m', src + off, src + len)
    ensures src + off <= |m'| && BuildFrom(m', src, buf, off) == BuildFrom(m, src, buf, off)
    decreases 5 - off
  {
    hide CodeFlags, SizeOf, IsInstruction, Relocated, Jump, InstructionAt, BuildFrom, Move, XCodeFlags, Agree;
    var ins := TurnReads(m, src, buf, off);
    TurnOn(m, src, buf, off, ins);
    SameInstruction(m, m', src + off, src + len, ins);
    TurnOn(m', src, buf, off, ins);
    if off + |ins| < 5 {
      BuildIsLocal(m, m', src, buf, off + |ins|, len);
    }
  }

  lemma SameInstruction(m: Bytes, m': Bytes, a: nat, end: nat, ins: Bytes)
    requires InstructionAt(m, a) == Some(ins) && a + |ins| <= end && Agree(m, m', a, end)
    ensures InstructionAt(m', a) == Some(ins) && Agree(m, m', a + |ins|, end)
  {
    hide CodeFlags, SizeOf, IsInstruction, InstructionAt;
    SameSlices(m, m', a, a + |ins|, end);
    FoundAt(m', a, ins);
  }

  lemma SameSlices(m: Bytes, m': Bytes, a: nat, b: nat, c: nat)
    requires a <= b <= c <= |m| && c <= |m'| && m[a..c] == m'[a..c]
    ensures m[a..b] == m'[a..b] && m[b..c] == m'[b..c]
  {
    forall i | a <= i < c ensures m[i] == m'[i] {
      assert m[i] == m[a..c][i - a] && m'[i] == m'[a..c][i - a];
    }
  }
}
