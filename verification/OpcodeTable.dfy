/** The packed table of opcode flags that the length decoder looks opcodes up in. */
module OpcodeTable {
  import opened Words

  const OP_DATA_I8 := 0x001
  const OP_MODRM := 0x008
  const OP_DATA_PRE66_67 := 0x010
  const OP_PREFIX := 0x020
  const OP_REL32 := 0x040
  const OP_REL8 := 0x080
  const OP_EXTENDED := 0x100

  /** packed_table, sixteen entries a row: 128 indices, one for each group of four opcodes, then the
      flag bytes they point at. */
  const PACKED_ROWS: seq<seq<Byte>> := [
    [0x80, 0x84, 0x80, 0x84, 0x80, 0x84, 0x80, 0x84, 0x80, 0x88, 0x80, 0x88, 0x80, 0x88, 0x80, 0x88],
    [0x8c, 0x8b, 0x8b, 0x8b, 0x8b, 0x8b, 0x8b, 0x8b, 0x90, 0x94, 0x98, 0x8b, 0x9c, 0x9c, 0x9c, 0x9c],
    [0xa0, 0x80, 0x80, 0x80, 0x8b, 0x8b, 0xa4, 0x8b, 0xa8, 0x8b, 0x84, 0x8b, 0xac, 0xac, 0xa8, 0xa8],
    [0xb0, 0xb4, 0xb8, 0xbc, 0x80, 0xc0, 0x80, 0x80, 0x9c, 0xac, 0xc4, 0x8b, 0xc8, 0x90, 0x8b, 0x90],
    [0x80, 0x8b, 0x8b, 0xcc, 0x80, 0x80, 0xd0, 0x8b, 0x80, 0xd4, 0x80, 0x80, 0x8b, 0x8b, 0x8b, 0x8b],
    [0x80, 0x80, 0x80, 0x80, 0x80, 0x80, 0x80, 0x80, 0x80, 0x80, 0x80, 0x80, 0xd8, 0xdc, 0x8b, 0x80],
    [0xe0, 0xe0, 0xe0, 0xe0, 0x80, 0x80, 0x80, 0x80, 0x8f, 0xcf, 0x8f, 0xdb, 0x80, 0x80, 0xe4, 0x80],
    [0xe8, 0xd9, 0x8b, 0x8b, 0x80, 0x80, 0x80, 0x80, 0x80, 0x80, 0x80, 0x80, 0x80, 0x80, 0x80, 0xdc],
    [0x08, 0x08, 0x08, 0x08, 0x01, 0x10, 0x00, 0x00, 0x01, 0x10, 0x20, 0x00, 0x00, 0x00, 0x00, 0x00],
    [0x00, 0x00, 0x08, 0x08, 0x20, 0x20, 0x20, 0x20, 0x10, 0x18, 0x01, 0x09, 0x81, 0x81, 0x81, 0x81],
    [0x09, 0x18, 0x09, 0x09, 0x00, 0x00, 0x12, 0x00, 0x10, 0x10, 0x10, 0x10, 0x01, 0x01, 0x01, 0x01],
    [0x09, 0x09, 0x02, 0x00, 0x08, 0x08, 0x09, 0x18, 0x03, 0x00, 0x02, 0x00, 0x00, 0x01, 0x00, 0x00],
    [0x01, 0x01, 0x00, 0x00, 0x50, 0x50, 0x12, 0x81, 0x20, 0x00, 0x20, 0x20, 0x00, 0x08, 0x00, 0x09],
    [0x08, 0x00, 0x00, 0x00, 0x08, 0x00, 0x08, 0x00, 0x09, 0x09, 0x09, 0x09, 0x08, 0x08, 0x08, 0x00],
    [0x50, 0x50, 0x50, 0x50, 0x00, 0x00, 0x09, 0x08, 0x08, 0x08, 0x09, 0x08]]

  const PACKED_SIZE := 236

  lemma RowsAreFull(i: nat)
    requires i < PACKED_SIZE
    ensures |PACKED_ROWS| == 15 && i % 16 < |PACKED_ROWS[i / 16]|
  {
  }

  function PackedTable(i: nat): Byte
    requires i < PACKED_SIZE
  {
    RowsAreFull(i);
    PACKED_ROWS[i / 16][i % 16]
  }

  lemma IndexInTable(group: nat)
    requires group < 128
    ensures 128 <= PackedTable(group) <= 232
  {
  }

  /** code_flags: one-byte opcodes are 0 to 0xFF, opcodes after 0F are 0x100 to 0x1FF. */
  function CodeFlags(code: nat): Byte
    requires code < 0x200
  {
    IndexInTable(code / 4);
    PackedTable(PackedTable(code / 4) + code % 4)
  }

  /** `flags & bit`, for a power of two. */
  predicate HasFlag(flags: nat, bit: nat)
    requires bit > 0
  {
    flags / bit % 2 == 1
  }
}
