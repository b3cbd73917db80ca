/** The operands of IA-32 opcodes as the processor manual's opcode maps give them (Intel SDM, Volume 2,
    appendix A), and that the packed table says the same but for the opcodes it misses.  Opcodes after 0F are
    numbered from 0x100. */
module OpcodeMap {
  import opened Words
  import opened OpcodeTable

  /** The prefix bytes of the processor manual: segment overrides, operand and address size, LOCK and the
      repeat prefixes (Intel SDM, Volume 2, section 2.1.1). */
  predicate IsPrefix(b: Byte) {
    b == 0x26 || b == 0x2E || b == 0x36 || b == 0x3E || 0x64 <= b <= 0x67 || b == 0xF0 || b == 0xF2 || b == 0xF3
  }

  predicate OneByteModRM(b: nat) {
    || (b < 0x40 && b % 8 < 4)
    || b == 0x62 || b == 0x63 || b == 0x69 || b == 0x6B || 0x80 <= b <= 0x8F
    || b == 0xC0 || b == 0xC1 || 0xC4 <= b <= 0xC7 || 0xD0 <= b <= 0xD3 || 0xD8 <= b <= 0xDF
    || b == 0xF6 || b == 0xF7 || b == 0xFE || b == 0xFF
  }

  predicate TwoByteModRM(b: nat) {
    || b <= 0x03 || b == 0x0D || b == 0x0F || 0x10 <= b <= 0x24 || b == 0x26 || 0x28 <= b <= 0x2F
    || 0x40 <= b <= 0x76 || b == 0x78 || b == 0x79 || 0x7C <= b <= 0x7F || 0x90 <= b <= 0x9F
    || 0xA3 <= b <= 0xA5 || 0xAB <= b <= 0xC7 || 0xD0 <= b <= 0xFF
  }

  /** A ModR/M byte follows the opcode. */
  predicate HasModRM(op: nat) {
    if op < 0x100 then OneByteModRM(op) else TwoByteModRM(op - 0x100)
  }

  /** 0F 38 and 0F 3A are followed by a third opcode byte. */
  predicate ThreeByteEscape(op: nat) {
    op == 0x138 || op == 0x13A
  }

  /** Reserved NOPs, VMREAD and VMWRITE, POPCNT, UD1 and UD0: they have a ModR/M byte, but not in the table. */
  predicate Missed(op: nat) {
    0x119 <= op <= 0x11F || op == 0x178 || op == 0x179 || op == 0x1B8 || op == 0x1B9 || op == 0x1FF
  }

  /** Jcc, LOOPcc, JCXZ and JMP with a one-byte displacement. */
  predicate ShortRelative(op: nat) {
    0x70 <= op <= 0x7F || 0xE0 <= op <= 0xE3 || op == 0xEB
  }

  /** CALL, JMP and Jcc with an operand-sized displacement. */
  predicate NearRelative(op: nat) {
    op == 0xE8 || op == 0xE9 || 0x180 <= op <= 0x18F
  }

  predicate HasImm8(op: nat) {
    || (op < 0x40 && op % 8 == 4)
    || op == 0x6A || op == 0x6B || op == 0x80 || op == 0x82 || op == 0x83 || op == 0xA8 || 0xB0 <= op <= 0xB7
    || op == 0xC0 || op == 0xC1 || op == 0xC6 || op == 0xCD || op == 0xD4 || op == 0xD5 || 0xE4 <= op <= 0xE7
    || op == 0x10F || 0x170 <= op <= 0x173 || op == 0x1A4 || op == 0x1AC || op == 0x1BA || op == 0x1C2
    || 0x1C4 <= op <= 0x1C6
  }

  /** Immediate bytes whose number does not depend on prefixes: an imm8 or a one-byte displacement; the imm16
      of RET and RETF and the selector of far CALL and JMP; the imm16 and imm8 of ENTER. */
  function FixedBytes(op: nat): nat {
    if HasImm8(op) || ShortRelative(op) then 1
    else if op == 0xC2 || op == 0xCA || op == 0x9A || op == 0xEA then 2
    else if op == 0xC8 then 3
    else 0
  }

  /** MOV between AL or EAX and memory at an offset that the instruction holds. */
  predicate MemoryOffset(op: nat) {
    op == 0xA0 || op == 0xA1 || op == 0xA2 || op == 0xA3
  }

  /** An operand-sized immediate, displacement or far offset, or an address-sized memory offset. */
  predicate HasWord(op: nat) {
    || (op < 0x40 && op % 8 == 5)
    || op == 0x68 || op == 0x69 || op == 0x81 || op == 0x9A || MemoryOffset(op) || op == 0xA9 || 0xB8 <= op <= 0xBF
    || op == 0xC7 || op == 0xEA || NearRelative(op)
  }

  /** The table's flag byte for an opcode, put together from the map. */
  function MapFlags(op: nat): nat {
    FixedBytes(op)
    + (if HasModRM(op) && !Missed(op) then OP_MODRM else 0)
    + (if HasWord(op) then OP_DATA_PRE66_67 else 0)
    + (if op < 0x100 && IsPrefix(op) then OP_PREFIX else 0)
    + (if NearRelative(op) then OP_REL32 else 0)
    + (if ShortRelative(op) then OP_REL8 else 0)
  }

  // ----------------------------------------------------------------------------------------------
  // The table row by row, and the map block by block

  lemma Groups0(g: nat)
    requires 0 <= g < 16
    ensures PackedTable(g) ==
      if g <= 0 then 0x80 else if g <= 1 then 0x84 else if g <= 2 then 0x80 else if g <= 3 then 0x84
      else if g <= 4 then 0x80 else if g <= 5 then 0x84 else if g <= 6 then 0x80
      else if g <= 7 then 0x84 else if g <= 8 then 0x80 else if g <= 9 then 0x88
      else if g <= 10 then 0x80 else if g <= 11 then 0x88 else if g <= 12 then 0x80
      else if g <= 13 then 0x88 else if g <= 14 then 0x80 else 0x88
  {
  }

  lemma Groups1(g: nat)
    requires 16 <= g < 32
    ensures PackedTable(g) ==
      if g <= 16 then 0x8C else if g <= 23 then 0x8B else if g <= 24 then 0x90
      else if g <= 25 then 0x94 else if g <= 26 then 0x98 else if g <= 27 then 0x8B else 0x9C
  {
  }

  lemma Groups2(g: nat)
    requires 32 <= g < 48
    ensures PackedTable(g) ==
      if g <= 32 then 0xA0 else if g <= 35 then 0x80 else if g <= 37 then 0x8B
      else if g <= 38 then 0xA4 else if g <= 39 then 0x8B else if g <= 40 then 0xA8
      else if g <= 41 then 0x8B else if g <= 42 then 0x84 else if g <= 43 then 0x8B
      else if g <= 45 then 0xAC else 0xA8
  {
  }

  lemma Groups3(g: nat)
    requires 48 <= g < 64
    ensures PackedTable(g) ==
      if g <= 48 then 0xB0 else if g <= 49 then 0xB4 else if g <= 50 then 0xB8
      else if g <= 51 then 0xBC else if g <= 52 then 0x80 else if g <= 53 then 0xC0
      else if g <= 55 then 0x80 else if g <= 56 then 0x9C else if g <= 57 then 0xAC
      else if g <= 58 then 0xC4 else if g <= 59 then 0x8B else if g <= 60 then 0xC8
      else if g <= 61 then 0x90 else if g <= 62 then 0x8B else 0x90
  {
  }

  lemma Groups4(g: nat)
    requires 64 <= g < 80
    ensures PackedTable(g) ==
      if g <= 64 then 0x80 else if g <= 66 then 0x8B else if g <= 67 then 0xCC
      else if g <= 69 then 0x80 else if g <= 70 then 0xD0 else if g <= 71 then 0x8B
      else if g <= 72 then 0x80 else if g <= 73 then 0xD4 else if g <= 75 then 0x80 else 0x8B
  {
  }

  lemma Groups5(g: nat)
    requires 80 <= g < 96
    ensures PackedTable(g) ==
      if g <= 91 then 0x80 else if g <= 92 then 0xD8 else if g <= 93 then 0xDC
      else if g <= 94 then 0x8B else 0x80
  {
  }

  lemma Groups6(g: nat)
    requires 96 <= g < 112
    ensures PackedTable(g) ==
      if g <= 99 then 0xE0 else if g <= 103 then 0x80 else if g <= 104 then 0x8F
      else if g <= 105 then 0xCF else if g <= 106 then 0x8F else if g <= 107 then 0xDB
      else if g <= 109 then 0x80 else if g <= 110 then 0xE4 else 0x80
  {
  }

  lemma Groups7(g: nat)
    requires 112 <= g < 128
    ensures PackedTable(g) ==
      if g <= 112 then 0xE8 else if g <= 113 then 0xD9 else if g <= 115 then 0x8B
      else if g <= 126 then 0x80 else 0xDC
  {
  }

  /** The second half of the table, in runs of equal bytes. */
  function Entry(i: nat): nat {
    if i <= 131 then 0x08 else if i <= 132 then 0x01 else if i <= 133 then 0x10
    else if i <= 135 then 0x00 else if i <= 136 then 0x01 else if i <= 137 then 0x10
    else if i <= 138 then 0x20 else if i <= 145 then 0x00 else if i <= 147 then 0x08
    else if i <= 151 then 0x20 else if i <= 152 then 0x10 else if i <= 153 then 0x18
    else if i <= 154 then 0x01 else if i <= 155 then 0x09 else if i <= 159 then 0x81
    else if i <= 160 then 0x09 else if i <= 161 then 0x18 else if i <= 163 then 0x09
    else if i <= 165 then 0x00 else if i <= 166 then 0x12 else if i <= 167 then 0x00
    else if i <= 171 then 0x10 else if i <= 175 then 0x01 else if i <= 177 then 0x09
    else if i <= 178 then 0x02 else if i <= 179 then 0x00 else if i <= 181 then 0x08
    else if i <= 182 then 0x09 else if i <= 183 then 0x18 else if i <= 184 then 0x03
    else if i <= 185 then 0x00 else if i <= 186 then 0x02 else if i <= 188 then 0x00
    else if i <= 189 then 0x01 else if i <= 191 then 0x00 else if i <= 193 then 0x01
    else if i <= 195 then 0x00 else if i <= 197 then 0x50 else if i <= 198 then 0x12
    else if i <= 199 then 0x81 else if i <= 200 then 0x20 else if i <= 201 then 0x00
    else if i <= 203 then 0x20 else if i <= 204 then 0x00 else if i <= 205 then 0x08
    else if i <= 206 then 0x00 else if i <= 207 then 0x09 else if i <= 208 then 0x08
    else if i <= 211 then 0x00 else if i <= 212 then 0x08 else if i <= 213 then 0x00
    else if i <= 214 then 0x08 else if i <= 215 then 0x00 else if i <= 219 then 0x09
    else if i <= 222 then 0x08 else if i <= 223 then 0x00 else if i <= 227 then 0x50
    else if i <= 229 then 0x00 else if i <= 230 then 0x09 else if i <= 233 then 0x08
    else if i <= 234 then 0x09 else 0x08
  }

  lemma Entries8(i: nat)
    requires 128 <= i < 144
    ensures PackedTable(i) == Entry(i)
  {
  }

  lemma Entries9(i: nat)
    requires 144 <= i < 160
    ensures PackedTable(i) == Entry(i)
  {
  }

  lemma Entries10(i: nat)
    requires 160 <= i < 176
    ensures PackedTable(i) == Entry(i)
  {
  }

  lemma Entries11(i: nat)
    requires 176 <= i < 192
    ensures PackedTable(i) == Entry(i)
  {
  }

  lemma Entries12(i: nat)
    requires 192 <= i < 208
    ensures PackedTable(i) == Entry(i)
  {
  }

  lemma Entries13(i: nat)
    requires 208 <= i < 224
    ensures PackedTable(i) == Entry(i)
  {
  }

  lemma Entries14(i: nat)
    requires 224 <= i < 236
    ensures PackedTable(i) == Entry(i)
  {
  }

  lemma Entries(i: nat)
    requires 128 <= i < PACKED_SIZE
    ensures PackedTable(i) == Entry(i)
  {
    hide PackedTable, Entry;
    if i < 144 {
      Entries8(i);
    } else if i < 160 {
      Entries9(i);
    } else if i < 176 {
      Entries10(i);
    } else if i < 192 {
      Entries11(i);
    } else if i < 208 {
      Entries12(i);
    } else if i < 224 {
      Entries13(i);
    } else {
      Entries14(i);
    }
  }

  lemma FirstRowsMap(op: nat)
    requires op < 0x40
    ensures MapFlags(op) ==
      if op % 8 < 4 then OP_MODRM else if op % 8 == 4 then OP_DATA_I8 else if op % 8 == 5 then OP_DATA_PRE66_67
      else if op >= 0x20 && op % 8 == 6 then OP_PREFIX else 0
  {
    hide PackedTable;
  }

  lemma FirstRows(op: nat)
    requires op < 0x40
    ensures CodeFlags(op) == MapFlags(op)
  {
    hide PackedTable, MapFlags;
    FirstRowsMap(op);
    Groups0(op / 4);
    Entries(PackedTable(op / 4) + op % 4);
  }

  lemma Block40(op: nat)
    requires 0x40 <= op < 0x60
    ensures CodeFlags(op) == MapFlags(op)
  {
    hide PackedTable;
    Groups1(op / 4);
    Entries(PackedTable(op / 4) + op % 4);
  }

  lemma Block60(op: nat)
    requires 0x60 <= op < 0x80
    ensures CodeFlags(op) == MapFlags(op)
  {
    hide PackedTable;
    Groups1(op / 4);
    Entries(PackedTable(op / 4) + op % 4);
  }

  lemma Block80(op: nat)
    requires 0x80 <= op < 0xA0
    ensures CodeFlags(op) == MapFlags(op)
  {
    hide PackedTable;
    Groups2(op / 4);
    Entries(PackedTable(op / 4) + op % 4);
  }

  lemma BlockA0(op: nat)
    requires 0xA0 <= op < 0xC0
    ensures CodeFlags(op) == MapFlags(op)
  {
    hide PackedTable;
    Groups2(op / 4);
    Entries(PackedTable(op / 4) + op % 4);
  }

  lemma BlockC0(op: nat)
    requires 0xC0 <= op < 0xE0
    ensures CodeFlags(op) == MapFlags(op)
  {
    hide PackedTable;
    Groups3(op / 4);
    Entries(PackedTable(op / 4) + op % 4);
  }

  lemma BlockE0(op: nat)
    requires 0xE0 <= op < 0x100
    ensures CodeFlags(op) == MapFlags(op)
  {
    hide PackedTable;
    Groups3(op / 4);
    Entries(PackedTable(op / 4) + op % 4);
  }

  lemma Block100(op: nat)
    requires 0x100 <= op < 0x120
    ensures CodeFlags(op) == MapFlags(op)
  {
    hide PackedTable;
    Groups4(op / 4);
    Entries(PackedTable(op / 4) + op % 4);
  }

  lemma Block120(op: nat)
    requires 0x120 <= op < 0x130
    ensures CodeFlags(op) == MapFlags(op)
  {
    hide PackedTable;
    Groups4(op / 4);
    Entries(PackedTable(op / 4) + op % 4);
  }

  lemma Block130(op: nat)
    requires 0x130 <= op < 0x140
    ensures CodeFlags(op) == MapFlags(op)
  {
    hide PackedTable;
    Groups4(op / 4);
    Entries(PackedTable(op / 4) + op % 4);
  }

  lemma Block140(op: nat)
    requires 0x140 <= op < 0x160
    ensures CodeFlags(op) == MapFlags(op)
  {
    hide PackedTable;
    Groups5(op / 4);
    Entries(PackedTable(op / 4) + op % 4);
  }

  lemma Block160(op: nat)
    requires 0x160 <= op < 0x180
    ensures CodeFlags(op) == MapFlags(op)
  {
    hide PackedTable;
    Groups5(op / 4);
    Entries(PackedTable(op / 4) + op % 4);
  }

  lemma Block180(op: nat)
    requires 0x180 <= op < 0x1A0
    ensures CodeFlags(op) == MapFlags(op)
  {
    hide PackedTable;
    Groups6(op / 4);
    Entries(PackedTable(op / 4) + op % 4);
  }

  lemma Block1A0(op: nat)
    requires 0x1A0 <= op < 0x1B0
    ensures CodeFlags(op) == MapFlags(op)
  {
    hide PackedTable;
    Groups6(op / 4);
    Entries(PackedTable(op / 4) + op % 4);
  }

  lemma Block1B0(op: nat)
    requires 0x1B0 <= op < 0x1C0
    ensures CodeFlags(op) == MapFlags(op)
  {
    hide PackedTable;
    Groups6(op / 4);
    Entries(PackedTable(op / 4) + op % 4);
  }

  lemma Block1C0(op: nat)
    requires 0x1C0 <= op < 0x1E0
    ensures CodeFlags(op) == MapFlags(op)
  {
    hide PackedTable;
    Groups7(op / 4);
    Entries(PackedTable(op / 4) + op % 4);
  }

  lemma Block1E0(op: nat)
    requires 0x1E0 <= op < 0x200
    ensures CodeFlags(op) == MapFlags(op)
  {
    hide PackedTable;
    Groups7(op / 4);
    Entries(PackedTable(op / 4) + op % 4);
  }

  lemma TableIsMap(op: nat)
    requires op < 0x200
    ensures CodeFlags(op) == MapFlags(op)
  {
    hide CodeFlags, MapFlags;
    if op < 0x40 {
      FirstRows(op);
    } else if op < 0x60 {
      Block40(op);
    } else if op < 0x80 {
      Block60(op);
    } else if op < 0xA0 {
      Block80(op);
    } else if op < 0xC0 {
      BlockA0(op);
    } else if op < 0xE0 {
      BlockC0(op);
    } else if op < 0x100 {
      BlockE0(op);
    } else if op < 0x120 {
      Block100(op);
    } else if op < 0x130 {
      Block120(op);
    } else if op < 0x140 {
      Block130(op);
    } else if op < 0x160 {
      Block140(op);
    } else if op < 0x180 {
      Block160(op);
    } else if op < 0x1A0 {
      Block180(op);
    } else if op < 0x1B0 {
      Block1A0(op);
    } else if op < 0x1C0 {
      Block1B0(op);
    } else if op < 0x1E0 {
      Block1C0(op);
    } else {
      Block1E0(op);
    }
  }

  /** The flags of every opcode, one by one. */
  lemma FlagsByTheManual(op: nat)
    requires op < 0x200
    ensures CodeFlags(op) % 8 == FixedBytes(op)
    ensures HasFlag(CodeFlags(op), OP_MODRM) <==> HasModRM(op) && !Missed(op)
    ensures HasFlag(CodeFlags(op), OP_DATA_PRE66_67) <==> HasWord(op)
    ensures HasFlag(CodeFlags(op), OP_PREFIX) <==> op < 0x100 && IsPrefix(op)
    ensures HasFlag(CodeFlags(op), OP_REL32) <==> NearRelative(op)
    ensures HasFlag(CodeFlags(op), OP_REL8) <==> ShortRelative(op)
  {
    hide CodeFlags, HasModRM, HasImm8, HasWord, IsPrefix, NearRelative, ShortRelative, Missed;
    TableIsMap(op);
  }

  predicate KnownFlags(f: nat) {
    f == 0 || f == 1 || f == 2 || f == 3 || f == 8 || f == 9 || f == 0x10 || f == 0x12 || f == 0x18 || f == 0x20
    || f == 0x50 || f == 0x81
  }

  /** Branches have no ModR/M byte, and no opcode after 0F has both a ModR/M byte and a four-byte
      immediate. */
  lemma FlagFacts(code: nat)
    requires code < 0x200
    ensures KnownFlags(CodeFlags(code))
    ensures code >= 0x100 ==> CodeFlags(code) != 0x18
  {
    hide CodeFlags;
    TableIsMap(code);
  }

  /** The table marks exactly the prefixes of the manual. */
  lemma PrefixesAreFlagged(b: Byte)
    ensures IsPrefix(b) <==> CodeFlags(b) == OP_PREFIX
    ensures IsPrefix(b) <==> HasFlag(CodeFlags(b), OP_PREFIX)
  {
    hide CodeFlags;
    FlagFacts(b);
    FlagsByTheManual(b);
  }

  /** Where the table and the manual part: exactly at the missed opcodes. */
  lemma MissedModRM(op: nat)
    requires op < 0x200
    ensures (HasFlag(CodeFlags(op), OP_MODRM) <==> HasModRM(op)) <==> !Missed(op)
  {
    hide CodeFlags;
    FlagsByTheManual(op);
  }
}
