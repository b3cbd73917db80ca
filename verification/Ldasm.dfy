/** The table-driven IA-32 instruction length decoder. */
module Ldasm {
  import opened Words
  import opened OpcodeTable
  import opened OpcodeMap

  /** `flags |= bit`, for a power of two. */
  function SetFlag(flags: nat, bit: nat): nat
    requires bit > 0
  {
    if HasFlag(flags, bit) then flags else flags + bit
  }

  /** x_code_flags, which looks at the first byte even when it is a prefix; None when it would read past
      the end of the readable bytes. */
  function XCodeFlags(code: Bytes): Option<nat> {
    if code == [] then None
    else if code[0] != 0x0F then Some(CodeFlags(code[0]))
    else if |code| == 1 then None
    else Some(CodeFlags(code[1] + OP_EXTENDED) + OP_EXTENDED)
  }

  /** The number of leading prefix bytes; None when the bytes run out before an opcode. */
  function PrefixCount(code: Bytes): (r: Option<nat>)
    ensures r.Some? ==> r.value < |code| && !IsPrefix(code[r.value])
    ensures r.Some? ==> forall i :: 0 <= i < r.value ==> IsPrefix(code[i])
  {
    if code == [] then None
    else if !IsPrefix(code[0]) then Some(0)
    else match PrefixCount(code[1..])
      case None => None
      case Some(n) => Some(n + 1)
  }

  /** The opcode number that indexes the table, and how many bytes it takes. */
  function OpcodeOf(code: Bytes): (r: Option<(nat, nat)>)
    requires code != []
    ensures r.Some? ==> r.value.0 < 0x200 && 1 <= r.value.1 <= 2 && r.value.1 <= |code|
  {
    if code[0] != 0x0F then Some((code[0], 1))
    else if |code| == 1 then None
    else Some((code[1] + OP_EXTENDED, 2))
  }

  /** Table flags, with the immediates that F6 and F7 have only when the reg field is zero. */
  function FlagsWithReg(op: nat, reg: nat): nat
    requires op < 0x200
  {
    if op == 0xF6 && reg == 0 then SetFlag(CodeFlags(op), OP_DATA_I8)
    else if op == 0xF7 && reg == 0 then SetFlag(CodeFlags(op), OP_DATA_PRE66_67)
    else CodeFlags(op)
  }

  /** `oflen` before the SIB byte is looked at. */
  function Displacement(short: bool, mod: nat, rm: nat): nat {
    if mod == 0 then (if short then (if rm == 6 then 2 else 0) else (if rm == 5 then 4 else 0))
    else if mod == 1 then 1
    else if mod == 2 then (if short then 2 else 4)
    else 0
  }

  predicate TakesSib(short: bool, mod: nat, rm: nat) {
    !short && rm == 4 && mod != 3
  }

  /** `oflen` in the end: displacement and SIB byte. */
  function AddressBytes(short: bool, mod: nat, rm: nat, sib: Byte): nat {
    if TakesSib(short, mod, rm) then (if sib % 8 == 5 && mod != 1 then 5 else Displacement(short, mod, rm) + 1)
    else Displacement(short, mod, rm)
  }

  function ImmediateBytes(flags: nat, short: bool): nat {
    (if HasFlag(flags, OP_DATA_PRE66_67) then (if short then 2 else 4) else 0) + flags % 8
  }

  /** The size of an instruction without its prefixes; None when the decoder would read past the end.  The
      address-size prefix stands in for the other one at A0 to A3. */
  function BodySize(code: Bytes, pfx66: bool, pfx67: bool): Option<nat>
    requires code != []
  {
    match OpcodeOf(code)
    case None => None
    case Some((op, m)) =>
      var short := if 0xA0 <= op <= 0xA3 then pfx67 else pfx66;
      if !HasFlag(CodeFlags(op), OP_MODRM) then Some(m + ImmediateBytes(CodeFlags(op), short))
      else if m >= |code| then None
      else
        var mod, reg, rm := code[m] / 64, code[m] / 8 % 8, code[m] % 8;
        if TakesSib(pfx67, mod, rm) && m + 1 >= |code| then None
        else
          var sib := if TakesSib(pfx67, mod, rm) then code[m + 1] else 0;
          Some(m + 1 + AddressBytes(pfx67, mod, rm, sib) + ImmediateBytes(FlagsWithReg(op, reg), short))
  }

  datatype Decoded = Decoded(size: nat, opcode: nat)

  /** size_of_code: the size, and where the opcode is. */
  function SizeOf(code: Bytes): Option<Decoded> {
    match PrefixCount(code)
    case None => None
    case Some(n) =>
      match BodySize(code[n..], 0x66 in code[..n], 0x67 in code[..n])
      case None => None
      case Some(size) => Some(Decoded(n + size, n))
  }

  lemma {:induction false} PrefixesAgree(code: Bytes, pos: nat)
    requires pos <= |code| && forall i :: 0 <= i < pos ==> IsPrefix(code[i])
    ensures PrefixCount(code) == match PrefixCount(code[pos..]) case None => None case Some(n) => Some(pos + n)
    decreases pos
  {
    hide CodeFlags, IsPrefix;
    if pos > 0 {
      PrefixesAgree(code[1..], pos - 1);
      assert code[1..][pos - 1..] == code[pos..];
    } else {
      assert code[0..] == code;
    }
  }

  /** size_of_code, its cursor and its two counters moving over the bytes; None where it would read past
      the end of the readable bytes. */
  method SizeOfCode(code: Bytes) returns (r: Option<Decoded>)
    ensures r == SizeOf(code)
  {
    hide CodeFlags, BodySize;
    var pos, osize, oflen := 0, 0, 0;
    var pfx66, pfx67 := 0, 0;
    while pos < |code| && HasFlag(CodeFlags(code[pos]), OP_PREFIX)
      invariant 0 <= pos <= |code| && osize == pos
      invariant forall i :: 0 <= i < pos ==> IsPrefix(code[i])
      invariant pfx66 == (if 0x66 in code[..pos] then 1 else 0)
      invariant pfx67 == (if 0x67 in code[..pos] then 1 else 0)
    {
      PrefixesAreFlagged(code[pos]);
      if code[pos] == 0x66 {
        pfx66 := 1;
      }
      if code[pos] == 0x67 {
        pfx67 := 1;
      }
      assert code[..pos + 1] == code[..pos] + [code[pos]];
      pos, osize := pos + 1, osize + 1;
    }
    PrefixesAgree(code, pos);
    if pos == |code| {
      return None;
    }
    PrefixesAreFlagged(code[pos]);
    ghost var body := code[pos..];
    var opcd := pos;
    r := MeasureBody(code, pos, osize, pfx66, pfx67, opcd);
  }

  /** The rest of size_of_code, from the opcode on. */
  method MeasureBody(code: Bytes, start: nat, size: nat, pfx66': nat, pfx67: nat, opcd: nat) returns (r: Option<Decoded>)
    requires start < |code| && pfx66' <= 1 && pfx67 <= 1
    ensures r == match BodySize(code[start..], pfx66' == 1, pfx67 == 1)
                 case None => None
                 case Some(n) => Some(Decoded(size + n, opcd))
  {
    hide CodeFlags, HasFlag, SetFlag;
    var code', osize, oflen, pfx66 := start, size, 0, pfx66';
    var op1 := code[code'];
    code', osize := code' + 1, osize + 1;
    var op2: nat;
    if op1 == 0x0F {
      if code' == |code| {
        return None;
      }
      op2 := code[code'] + OP_EXTENDED;
      code', osize := code' + 1, osize + 1;
    } else {
      op2 := op1;
      if 0xA0 <= op2 <= 0xA3 {
        pfx66 := pfx67;
      }
    }
    var flags: nat := CodeFlags(op2);
    if HasFlag(flags, OP_MODRM) {
      if code' == |code| {
        return None;
      }
      var iMod, iReg, iRm := code[code'] / 64, code[code'] / 8 % 8, code[code'] % 8;
      code', osize := code' + 1, osize + 1;
      if op1 == 0xF6 && iReg == 0 {
        flags := SetFlag(flags, OP_DATA_I8);
      }
      if op1 == 0xF7 && iReg == 0 {
        flags := SetFlag(flags, OP_DATA_PRE66_67);
      }
      if iMod == 0 {
        if pfx67 == 1 {
          if iRm == 6 {
            oflen := 2;
          }
        } else {
          if iRm == 5 {
            oflen := 4;
          }
        }
      } else if iMod == 1 {
        oflen := 1;
      } else if iMod == 2 {
        oflen := if pfx67 == 1 then 2 else 4;
      }
      if pfx67 == 0 && iRm == 4 && iMod != 3 {
        if code' == |code| {
          return None;
        }
        if code[code'] % 8 == 5 && iMod != 1 {
          oflen := 4;
        }
        oflen := oflen + 1;
      }
      osize := osize + oflen;
    }
    if HasFlag(flags, OP_DATA_PRE66_67) {
      osize := osize + 4 - 2 * pfx66;
    }
    osize := osize + flags % 8;
    return Some(Decoded(osize, opcd));
  }
}
