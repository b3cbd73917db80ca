/** IA-32 instructions as the processor manual lays them out (Intel SDM, Volume 2, sections 2.1.1 to
    2.1.5), and the proof that the decoder measures exactly these. */
module InstructionGrammar {
  import opened Words
  import opened OpcodeTable
  import opened OpcodeMap
  import opened Ldasm

  datatype Instruction = Instruction(
    prefixes: Bytes, escape: bool, opcode: Byte, modrm: Option<Byte>, sib: Option<Byte>, disp: Bytes, imm: Bytes)

  function Optional(b: Option<Byte>): Bytes {
    if b.None? then [] else [b.value]
  }

  function OpcodeBytes(i: Instruction): Bytes {
    if i.escape then [0x0F, i.opcode] else [i.opcode]
  }

  function EncodeBody(i: Instruction): Bytes {
    OpcodeBytes(i) + Optional(i.modrm) + Optional(i.sib) + i.disp + i.imm
  }

  function Encode(i: Instruction): Bytes {
    i.prefixes + EncodeBody(i)
  }

  function OpcodeNumber(i: Instruction): nat {
    if i.escape then i.opcode + OP_EXTENDED else i.opcode
  }

  function Mod(modrm: Byte): nat { modrm / 64 }

  function Reg(modrm: Byte): nat { modrm / 8 % 8 }

  function Rm(modrm: Byte): nat { modrm % 8 }

  predicate AddressSize16(i: Instruction) {
    0x67 in i.prefixes
  }

  predicate OperandSize16(i: Instruction) {
    0x66 in i.prefixes
  }

  /** Table 2-1, 16-bit addressing forms. */
  function Disp16(modrm: Byte): nat {
    match Mod(modrm)
    case 0 => if Rm(modrm) == 6 then 2 else 0
    case 1 => 1
    case 2 => 2
    case _ => 0
  }

  /** Tables 2-2 and 2-3, 32-bit addressing forms without and with a SIB byte. */
  function Disp32(modrm: Byte, sib: Option<Byte>): nat {
    match Mod(modrm)
    case 0 => if Rm(modrm) == 5 || (sib.Some? && sib.value % 8 == 5) then 4 else 0
    case 1 => 1
    case 2 => 4
    case _ => 0
  }

  predicate HasSib(i: Instruction) {
    i.modrm.Some? && !AddressSize16(i) && Mod(i.modrm.value) != 3 && Rm(i.modrm.value) == 4
  }

  function DispSize(i: Instruction): nat {
    if i.modrm.None? then 0
    else if AddressSize16(i) then Disp16(i.modrm.value)
    else Disp32(i.modrm.value, i.sib)
  }

  /** An operand-sized immediate; A0 to A3 have an address-sized offset in its place. */
  function WordSize(i: Instruction): nat {
    if (if MemoryOffset(OpcodeNumber(i)) then AddressSize16(i) else OperandSize16(i)) then 2 else 4
  }

  predicate IsGroup3Test(i: Instruction, opcode: Byte) {
    !i.escape && i.opcode == opcode && i.modrm.Some? && Reg(i.modrm.value) == 0
  }

  /** Immediates: the fixed bytes of the opcode, one more for TEST r/m8, an operand-sized one where the
      opcode has it or is TEST r/m32. */
  function ImmSize(i: Instruction): nat {
    FixedBytes(OpcodeNumber(i))
    + (if IsGroup3Test(i, 0xF6) then 1 else 0)
    + (if HasWord(OpcodeNumber(i)) || IsGroup3Test(i, 0xF7) then WordSize(i) else 0)
  }

  /** Prefixes, opcode, ModR/M, SIB, displacement and immediate, each where the others call for it. */
  predicate LaidOut(i: Instruction, modrm: bool) {
    && (forall k :: 0 <= k < |i.prefixes| ==> IsPrefix(i.prefixes[k]))
    && (!i.escape ==> i.opcode != 0x0F && !IsPrefix(i.opcode))
    && (i.modrm.Some? <==> modrm)
    && (i.sib.Some? <==> HasSib(i))
    && |i.disp| == DispSize(i)
    && |i.imm| == ImmSize(i)
  }

  /** The instructions of the manual's one-byte and two-byte opcode maps. */
  predicate ByTheManual(i: Instruction) {
    !ThreeByteEscape(OpcodeNumber(i)) && LaidOut(i, HasModRM(OpcodeNumber(i)))
  }

  /** The opcode has a ModR/M byte and the decoder knows. */
  predicate SeesModRM(op: nat) {
    HasModRM(op) && !Missed(op)
  }

  /** What the decoder takes for an instruction. */
  predicate WellFormed(i: Instruction) {
    LaidOut(i, SeesModRM(OpcodeNumber(i)))
  }

  // ----------------------------------------------------------------------------------------------
  // Every well-formed instruction is measured exactly

  lemma EscapeIsNoPrefix()
    ensures !IsPrefix(0x0F)
  {
  }

  lemma OpcodeRead(i: Instruction, rest: Bytes)
    requires WellFormed(i)
    ensures var code := EncodeBody(i) + rest;
            code != [] && OpcodeOf(code) == Some((OpcodeNumber(i), |OpcodeBytes(i)|))
  {
    hide CodeFlags;
    var code := EncodeBody(i) + rest;
    assert code[0] == OpcodeBytes(i)[0];
    if i.escape {
      assert code[1] == i.opcode;
    }
  }

  lemma ModRMRead(i: Instruction, rest: Bytes)
    requires WellFormed(i) && i.modrm.Some?
    ensures var code, m := EncodeBody(i) + rest, |OpcodeBytes(i)|;
            && m < |code| && code[m] == i.modrm.value
            && (i.sib.Some? ==> m + 1 < |code| && code[m + 1] == i.sib.value)
  {
    hide CodeFlags;
  }

  lemma ModRMSeen(op: nat)
    requires op < 0x200
    ensures HasFlag(CodeFlags(op), OP_MODRM) <==> SeesModRM(op)
  {
    hide CodeFlags, HasModRM, Missed;
    FlagsByTheManual(op);
  }

  /** The immediates of TEST are not in the opcode map. */
  lemma TestHasNoImmediate()
    ensures FixedBytes(0xF6) == FixedBytes(0xF7) == 0 && !HasWord(0xF6) && !HasWord(0xF7)
  {
  }

  /** The immediate bytes the decoder adds are the grammar's. */
  lemma ImmediatesOf(i: Instruction)
    requires i.modrm.Some? <==> SeesModRM(OpcodeNumber(i))
    ensures var op := OpcodeNumber(i);
            var short := WordSize(i) == 2;
            var flags := if i.modrm.Some? then FlagsWithReg(op, Reg(i.modrm.value)) else CodeFlags(op);
            ImmediateBytes(flags, short) == ImmSize(i)
  {
    hide CodeFlags, HasModRM, HasImm8, HasWord, Missed;
    FlagsByTheManual(OpcodeNumber(i));
    FlagFacts(OpcodeNumber(i));
    TestHasNoImmediate();
  }

  lemma AddressAgrees(i: Instruction)
    requires WellFormed(i) && i.modrm.Some?
    ensures var modrm := i.modrm.value;
            AddressBytes(AddressSize16(i), Mod(modrm), Rm(modrm), if i.sib.Some? then i.sib.value else 0)
            == |Optional(i.sib)| + |i.disp|
  {
    hide CodeFlags;
  }

  lemma BodyExact(i: Instruction, rest: Bytes)
    requires WellFormed(i)
    ensures EncodeBody(i) + rest != []
    ensures BodySize(EncodeBody(i) + rest, OperandSize16(i), AddressSize16(i)) == Some(|EncodeBody(i)|)
  {
    hide CodeFlags, FlagsWithReg, ImmediateBytes, AddressBytes, Disp32, Disp16, ImmSize, OpcodeOf, SeesModRM;
    OpcodeRead(i, rest);
    ModRMSeen(OpcodeNumber(i));
    ImmediatesOf(i);
    if i.modrm.Some? {
      ModRMRead(i, rest);
      AddressAgrees(i);
    }
  }

  lemma BodyStartsWithOpcode(i: Instruction, rest: Bytes)
    requires WellFormed(i)
    ensures var code := EncodeBody(i) + rest; code != [] && !IsPrefix(code[0])
  {
    hide CodeFlags;
    EscapeIsNoPrefix();
    assert (EncodeBody(i) + rest)[0] == OpcodeBytes(i)[0];
  }

  lemma PrefixesMarked(i: Instruction)
    requires WellFormed(i)
    ensures forall k :: 0 <= k < |i.prefixes| ==> IsPrefix(i.prefixes[k])
  {
    hide CodeFlags;
  }

  /** size_of_code returns the encoded length and the number of prefixes, whatever bytes follow. */
  lemma SizeIsExact(i: Instruction, rest: Bytes)
    requires WellFormed(i)
    ensures SizeOf(Encode(i) + rest) == Some(Decoded(|Encode(i)|, |i.prefixes|))
  {
    hide CodeFlags, BodySize, EncodeBody, WellFormed;
    var code, n := Encode(i) + rest, |i.prefixes|;
    assert code == i.prefixes + (EncodeBody(i) + rest);
    assert code[n..] == EncodeBody(i) + rest && code[..n] == i.prefixes;
    BodyStartsWithOpcode(i, rest);
    BodyExact(i, rest);
    PrefixesMarked(i);
    PrefixesAgree(code, n);
    assert PrefixCount(code[n..]) == Some(0);
  }

  // ----------------------------------------------------------------------------------------------
  // Whatever the decoder measures is a well-formed instruction

  function ParseModRM(code: Bytes, op: nat, m: nat): Option<Byte>
    requires op < 0x200
  {
    if SeesModRM(op) && m < |code| then Some(code[m]) else None
  }

  function ParseSib(code: Bytes, modrm: Option<Byte>, m: nat, pfx67: bool): Option<Byte> {
    if modrm.Some? && TakesSib(pfx67, Mod(modrm.value), Rm(modrm.value)) && m + 1 < |code| then Some(code[m + 1]) else None
  }

  /** The instruction without its displacement and immediate. */
  function ParseHead(code: Bytes, prefixes: Bytes): (i: Instruction)
    requires code != [] && OpcodeOf(code).Some?
  {
    var (op, m) := OpcodeOf(code).value;
    var modrm := ParseModRM(code, op, m);
    var sib := ParseSib(code, modrm, m, 0x67 in prefixes);
    Instruction(prefixes, code[0] == 0x0F, code[m - 1], modrm, sib, [], [])
  }

  /** The instruction at the start of the code. */
  function Parse(code: Bytes): Instruction
    requires SizeOf(code).Some? && SizeOf(code).value.size <= |code|
  {
    var d := SizeOf(code).value;
    var head := ParseHead(code[d.opcode..], code[..d.opcode]);
    var at := |Encode(head)|;
    if at + DispSize(head) <= d.size
    then head.(disp := code[at..at + DispSize(head)], imm := code[at + DispSize(head)..d.size])
    else head
  }

  lemma HeadEncodes(code: Bytes, prefixes: Bytes)
    requires code != [] && BodySize(code, 0x66 in prefixes, 0x67 in prefixes).Some?
    ensures OpcodeOf(code).Some?
    ensures var head := ParseHead(code, prefixes);
            && |EncodeBody(head)| <= |code| && EncodeBody(head) == code[..|EncodeBody(head)|]
            && OpcodeNumber(head) == OpcodeOf(code).value.0 && |OpcodeBytes(head)| == OpcodeOf(code).value.1
            && (head.modrm.Some? <==> SeesModRM(OpcodeNumber(head)))
            && (head.sib.Some? <==> HasSib(head))
  {
    hide CodeFlags, FlagsWithReg, ImmediateBytes, AddressBytes, SetFlag, HasFlag, SeesModRM;
    var head := ParseHead(code, prefixes);
    var m := OpcodeOf(code).value.1;
    ModRMSeen(OpcodeOf(code).value.0);
    assert OpcodeBytes(head) == code[..m];
  }

  /** What the decoder adds up, in the grammar's terms. */
  lemma MeasuredSize(code: Bytes, prefixes: Bytes)
    requires code != [] && BodySize(code, 0x66 in prefixes, 0x67 in prefixes).Some?
    ensures OpcodeOf(code).Some?
    ensures var head := ParseHead(code, prefixes);
            BodySize(code, 0x66 in prefixes, 0x67 in prefixes).value == |EncodeBody(head)| + DispSize(head) + ImmSize(head)
  {
    hide CodeFlags, FlagsWithReg, ImmediateBytes, AddressBytes, SetFlag, HasFlag, Disp16, Disp32, ImmSize, SeesModRM;
    HeadEncodes(code, prefixes);
    var head := ParseHead(code, prefixes);
    ModRMSeen(OpcodeNumber(head));
    HeadSizes(head);
  }

  lemma HeadSizes(head: Instruction)
    requires head.modrm.Some? <==> SeesModRM(OpcodeNumber(head))
    requires head.sib.Some? <==> HasSib(head)
    ensures var op := OpcodeNumber(head);
            var short := WordSize(head) == 2;
            var flags := if head.modrm.Some? then FlagsWithReg(op, Reg(head.modrm.value)) else CodeFlags(op);
            ImmediateBytes(flags, short) == ImmSize(head)
    ensures head.modrm.Some? ==>
      AddressBytes(AddressSize16(head), Mod(head.modrm.value), Rm(head.modrm.value), if head.sib.Some? then head.sib.value else 0)
      == |Optional(head.sib)| + DispSize(head)
  {
    hide CodeFlags, SeesModRM, ImmSize;
    ImmediatesOf(head);
  }

  /** Where the parsed head ends, and that displacement and immediate fill the rest. */
  lemma ParsedHead(code: Bytes) returns (head: Instruction)
    requires SizeOf(code).Some? && SizeOf(code).value.size <= |code|
    ensures var d := SizeOf(code).value;
            && code[d.opcode..] != [] && OpcodeOf(code[d.opcode..]).Some?
            && head == ParseHead(code[d.opcode..], code[..d.opcode])
            && |Encode(head)| + DispSize(head) + ImmSize(head) == d.size
            && Encode(head) == code[..|Encode(head)|]
            && (head.modrm.Some? <==> SeesModRM(OpcodeNumber(head)))
            && (head.sib.Some? <==> HasSib(head))
  {
    var d := SizeOf(code).value;
    head := ParseHead(code[d.opcode..], code[..d.opcode]);
    hide CodeFlags, DispSize, ImmSize, SeesModRM;
    HeadEncodes(code[d.opcode..], code[..d.opcode]);
    MeasuredSize(code[d.opcode..], code[..d.opcode]);
    assert code == code[..d.opcode] + code[d.opcode..];
  }

  /** Displacement and immediate do not influence how long they are. */
  lemma TailIrrelevant(head: Instruction, disp: Bytes, imm: Bytes)
    ensures var i := head.(disp := disp, imm := imm);
            && DispSize(i) == DispSize(head) && ImmSize(i) == ImmSize(head) && OpcodeNumber(i) == OpcodeNumber(head)
            && (HasSib(i) <==> HasSib(head))
            && (head.disp == head.imm == [] ==> Encode(i) == Encode(head) + disp + imm)
  {
    hide CodeFlags;
    var i := head.(disp := disp, imm := imm);
    if head.disp == head.imm == [] {
      assert EncodeBody(i) == EncodeBody(head) + disp + imm;
    }
  }

  /** The head starts behind the prefixes the decoder skipped. */
  lemma ParsedPrefixes(code: Bytes)
    requires SizeOf(code).Some?
    ensures var n := SizeOf(code).value.opcode;
            n < |code| && !IsPrefix(code[n]) && forall k :: 0 <= k < n ==> IsPrefix(code[..n][k])
  {
    hide CodeFlags, BodySize;
  }

  lemma ParsedIsWellFormed(code: Bytes)
    requires SizeOf(code).Some? && SizeOf(code).value.size <= |code|
    ensures WellFormed(Parse(code)) && Encode(Parse(code)) == code[..SizeOf(code).value.size]
  {
    hide CodeFlags, SizeOf, DispSize, ImmSize, HasSib, ParseModRM, ParseSib, Encode;
    var d, i := SizeOf(code).value, Parse(code);
    var head := ParsedHead(code);
    ParsedPrefixes(code);
    TailIrrelevant(head, i.disp, i.imm);
    assert |i.disp| == DispSize(head) && |i.imm| == ImmSize(head);
    assert code[..|Encode(head)|] + i.disp + i.imm == code[..d.size];
  }

  /** Decoding is local: only the instruction's own bytes matter. */
  lemma DecodingIsLocal(s: Bytes, t: Bytes)
    requires SizeOf(s).Some? && SizeOf(s).value.size <= |s| && SizeOf(s).value.size <= |t|
    requires s[..SizeOf(s).value.size] == t[..SizeOf(s).value.size]
    ensures SizeOf(t) == SizeOf(s)
  {
    hide CodeFlags, SizeOf, Parse, WellFormed, Encode;
    var n := SizeOf(s).value.size;
    ParsedIsWellFormed(s);
    SizeIsExact(Parse(s), s[n..]);
    SizeIsExact(Parse(s), t[n..]);
    assert s == s[..n] + s[n..];
    assert t == t[..n] + t[n..];
  }

  /** No two instructions share an encoding, and none is the beginning of another. */
  lemma EncodingIsUnambiguous(i: Instruction, x: Bytes, j: Instruction, y: Bytes)
    requires WellFormed(i) && WellFormed(j) && Encode(i) + x == Encode(j) + y
    ensures i == j && x == y
  {
    SizeIsExact(i, x);
    SizeIsExact(j, y);
    hide CodeFlags, SizeOf;
    assert Encode(i) == (Encode(i) + x)[..|Encode(i)|] && Encode(j) == (Encode(j) + y)[..|Encode(j)|];
    assert x == (Encode(i) + x)[|Encode(i)|..] && y == (Encode(j) + y)[|Encode(j)|..];
    assert i.prefixes == Encode(i)[..|i.prefixes|] && j.prefixes == Encode(j)[..|j.prefixes|];
    assert EncodeBody(i) == Encode(i)[|i.prefixes|..] && EncodeBody(j) == Encode(j)[|j.prefixes|..];
    SameBody(i, j);
  }

  lemma SameBody(i: Instruction, j: Instruction)
    requires WellFormed(i) && WellFormed(j) && i.prefixes == j.prefixes && EncodeBody(i) == EncodeBody(j)
    ensures i == j
  {
    hide CodeFlags;
    var code := EncodeBody(i) + [];
    OpcodeRead(i, []);
    OpcodeRead(j, []);
    assert i.escape == j.escape && i.opcode == j.opcode;
    if i.modrm.Some? {
      ModRMRead(i, []);
      ModRMRead(j, []);
    }
    assert i.modrm == j.modrm && i.sib == j.sib;
    var at := |OpcodeBytes(i)| + |Optional(i.modrm)| + |Optional(i.sib)|;
    assert i.disp == EncodeBody(i)[at..at + |i.disp|] && j.disp == EncodeBody(j)[at..at + |j.disp|];
    assert i.imm == EncodeBody(i)[at + |i.disp|..] && j.imm == EncodeBody(j)[at + |j.disp|..];
  }

  /** An instruction takes at least one byte and at most eleven besides its prefixes. */
  lemma SizeIsBounded(code: Bytes)
    requires SizeOf(code).Some?
    ensures var d := SizeOf(code).value; d.opcode + 1 <= d.size <= d.opcode + 11
  {
    hide CodeFlags;
    var d := SizeOf(code).value;
    var body := code[d.opcode..];
    FlagFacts(OpcodeOf(body).value.0);
    FlagsByTheManual(0xF6);
    FlagsByTheManual(0xF7);
    TestHasNoImmediate();
  }

  // ----------------------------------------------------------------------------------------------
  // Where the decoder and the manual part

  /** Of the manual's instructions with one or two opcode bytes, the decoder measures exactly those right
      whose ModR/M byte it does not miss; the others end for it behind the opcode. */
  lemma ManualSizes(i: Instruction, rest: Bytes)
    requires ByTheManual(i)
    ensures SizeOf(Encode(i) + rest) == Some(Decoded(|Encode(i)|, |i.prefixes|)) <==> !Missed(OpcodeNumber(i))
    ensures Missed(OpcodeNumber(i)) ==> SizeOf(Encode(i) + rest) == Some(Decoded(|i.prefixes| + 2, |i.prefixes|))
  {
    hide CodeFlags, SizeOf, HasModRM, HasWord, DispSize, IsPrefix;
    if Missed(OpcodeNumber(i)) {
      MissedHaveModRM(OpcodeNumber(i));
      var tail := Optional(i.modrm) + Optional(i.sib) + i.disp + i.imm;
      NothingMore(i.prefixes, i.opcode, tail + rest);
      assert Encode(i) + rest == i.prefixes + [0x0F, i.opcode] + (tail + rest);
    } else {
      SizeIsExact(i, rest);
    }
  }

  lemma MissedHaveModRM(op: nat)
    requires Missed(op)
    ensures HasModRM(op)
  {
  }

  /** After 0F, the missed opcodes and the escapes to three-byte opcodes are taken for all there is. */
  lemma NothingMore(prefixes: Bytes, opcode: Byte, rest: Bytes)
    requires forall k :: 0 <= k < |prefixes| ==> IsPrefix(prefixes[k])
    requires Missed(opcode + OP_EXTENDED) || ThreeByteEscape(opcode + OP_EXTENDED)
    ensures SizeOf(prefixes + [0x0F, opcode] + rest) == Some(Decoded(|prefixes| + 2, |prefixes|))
  {
    hide CodeFlags, SizeOf, IsPrefix;
    var i := Instruction(prefixes, true, opcode, None, None, [], []);
    assert Encode(i) == prefixes + [0x0F, opcode];
    SizeIsExact(i, rest);
  }
}
