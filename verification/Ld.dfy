/**
 The byte-level vocabulary of the length disassembler (libs/ld.h and
 libs/instruction.h): the opcode tables, the field macros and the
 classification of one opcode.

 Every table is a set of opcodes.  The decoder is written against an arbitrary
 `Tables` value; module LdTables supplies the bits of ld.h.
 */
module Ld {
  type byte = x: nat | x < 256

  // The tables of ld.h, in its order.
  datatype Tables = Tables(
    prefix: set<byte>,
    modrm: set<byte>,
    data1: set<byte>,
    data2: set<byte>,
    data66: set<byte>,
    ud1: set<byte>,
    arith1: set<byte>,
    jcc1: set<byte>,
    jmp1: set<byte>,
    ret1: set<byte>,
    call1: set<byte>,
    control1: set<byte>,
    logical1: set<byte>,
    memory1: set<byte>,
    system1: set<byte>,
    modrm2: set<byte>,
    imm8Two: set<byte>,
    ud2: set<byte>,
    arith2: set<byte>,
    jcc2: set<byte>,
    control2: set<byte>,
    logical2: set<byte>,
    memory2: set<byte>,
    system2: set<byte>,
    modrm38: set<byte>,
    ud38: set<byte>,
    arith38: set<byte>,
    memory38: set<byte>,
    control38: set<byte>,
    modrm3A: set<byte>,
    ud3A: set<byte>,
    arith3A: set<byte>,
    memory3A: set<byte>,
    vex0F3A: set<byte>,
    vex0F38: set<byte>,
    vex0F: set<byte>,
    evex0F3A: set<byte>,
    evex0F38: set<byte>,
    evex0F: set<byte>,
    opCodeExt: set<byte>)

  const INVALID_OPCODE: byte := 0x0E

  const VEX2: byte := 0xC5
  const VEX3: byte := 0xC4
  const EVEX: byte := 0x62
  const ESCAPE: byte := 0x0F

  // What the decoder's control flow takes for granted about its tables: the
  // vector prefixes are prefixes, REX bytes and the escape byte are not, and the
  // TEST opcodes (whose immediate depends on their ModRM byte) have a ModRM byte.
  predicate TablesOk(t: Tables) {
    && VEX2 in t.prefix && VEX3 in t.prefix && EVEX in t.prefix
    && ESCAPE !in t.prefix
    && (forall b: byte | IsRex(b) :: b !in t.prefix)
    && 0xF6 in t.modrm && 0xF7 in t.modrm
  }

  predicate IsRex(v: byte) { v / 16 == 4 }
  predicate IsRexW(v: byte) { (v / 8) % 2 == 1 }
  predicate IsVector(v: byte) { v == VEX2 || v == VEX3 || v == EVEX }
  predicate IsTest(v: byte) { v == 0xF6 || v == 0xF7 }
  predicate IsImm64(v: byte) { v / 8 == 0x17 }
  predicate IsOff64(v: byte) { v == 0xA1 || v == 0xA3 }
  predicate IsMem67(v: byte) { v == 0xA0 || v == 0xA3 }
  predicate Is80To87(v: byte) { v / 8 == 0x10 }
  // CHECK_F6_F7 masks the two low bits away before comparing with 0xF6.
  predicate IsF6F7(v: byte) { v - v % 4 == 0xF6 }
  predicate IsImm8Vex0F(v: byte) {
    v == 0x70 || v == 0x71 || v == 0x72 || v == 0x73 || v == 0xC2 || v == 0xC4 || v == 0xC5 || v == 0xC6
  }

  function ModField(m: byte): (r: nat) ensures r < 4 { m / 64 }
  function RegField(m: byte): (r: nat) ensures r < 8 { (m / 8) % 8 }
  function RmField(m: byte): (r: nat) ensures r < 8 { m % 8 }

  // A byte the prefix loop steps over: a legacy prefix or a REX byte.
  predicate Skippable(t: Tables, b: byte) {
    (b in t.prefix && !IsVector(b)) || (b !in t.prefix && IsRex(b))
  }

  datatype Kind = Untyped | Arithmetic | Jcc | Jmp | Ret | Call | Control | Logical | Memory | System | Other
  {
    predicate IsBranch() { this in {Jcc, Jmp, Ret, Call} }
  }

  // The operand sizes left by the prefixes, and whether a REX.W was among them.
  datatype Mods = Mods(ddef: nat, mdef: nat, rexW: bool)

  function ModsOf(prefixes: seq<byte>): Mods {
    Mods(if 0x66 in prefixes then 2 else 4,
         if 0x67 in prefixes then 2 else 4,
         exists b | b in prefixes :: IsRex(b) && IsRexW(b))
  }

  /** What an opcode tells about the bytes after it.  `rexImm` is false on the one
      path that jumps past the REX.W size fix. */
  datatype Shape = BadOpcode
                 | Shape(op: byte, multibyte: bool, modrm: bool, rexImm: bool, imm: nat, moffs: nat, kind: Kind)

  function Count(b: bool): nat { if b then 1 else 0 }

  function OneByteKind(t: Tables, op: byte): Kind {
    if op in t.arith1 then Arithmetic
    else if op in t.control1 then Control
    else if op in t.logical1 then Logical
    else if op in t.memory1 then Memory
    else if op in t.system1 then System
    else if op in t.jcc1 then Jcc
    else if op in t.jmp1 then Jmp
    else if op in t.call1 then Call
    else if op in t.ret1 then Ret
    else Other
  }

  function OneByteShape(t: Tables, op: byte, mods: Mods): Shape {
    if op in t.ud1 then BadOpcode
    else
      Shape(op, false, op in t.modrm, true,
            Count(op in t.data1) + 2 * Count(op in t.data2) + mods.ddef * Count(op in t.data66),
            if IsMem67(op) then mods.mdef else 0,
            OneByteKind(t, op))
  }

  function TwoByteKind(t: Tables, op: byte): Kind {
    if op in t.arith2 then Arithmetic
    else if op in t.control2 then Control
    else if op in t.logical2 then Logical
    else if op in t.memory2 then Memory
    else if op in t.system2 then System
    else if op in t.jcc2 then Jcc
    else Other
  }

  function TwoByteShape(t: Tables, op: byte, mods: Mods): Shape {
    if op in t.ud2 then BadOpcode
    else
      Shape(op, true, op in t.modrm2, true,
            Count(op in t.imm8Two) + mods.ddef * Count(op / 16 == 8), 0, TwoByteKind(t, op))
  }

  function Map38Shape(t: Tables, op: byte): Shape {
    if op in t.ud38 then BadOpcode
    else
      Shape(op, true, op in t.modrm38, true, 0, 0,
            if op in t.arith38 then Arithmetic
            else if op in t.memory38 then Memory
            else if op in t.control38 then Control
            else Other)
  }

  function Map3AShape(t: Tables, op: byte): Shape {
    if op in t.ud3A then BadOpcode
    else
      Shape(op, true, op in t.modrm3A, true, 1, 0,
            if op in t.arith3A then Arithmetic
            else if op in t.memory3A then Memory
            else Other)
  }

  // 0x77 under VEX map 0F (VZEROUPPER) ends the instruction at its opcode.
  function Vex0FShape(op: byte): Shape {
    if op == 0x77 then Shape(op, false, false, false, 0, 0, Untyped)
    else Shape(op, false, true, true, Count(IsImm8Vex0F(op)), 0, Untyped)
  }

  function Vex3Shape(t: Tables, mmmmm: byte, op: byte): Shape {
    var field := mmmmm % 32;
    if field == 2 && op in t.vex0F38 then Shape(op, false, true, true, Count(op == 0x13), 0, Untyped)
    else if field == 3 && op in t.vex0F3A then
      Shape(op, false, true, true, Count(op != 0x4A && op != 0x4B && op != 0x4C), 0, Untyped)
    else if field == 1 && op in t.vex0F then Vex0FShape(op)
    else BadOpcode
  }

  function EvexShape(t: Tables, mm: byte, op: byte): Shape {
    var field := mm % 4;
    if field == 2 && op in t.evex0F38 then Shape(op, false, true, true, 0, 0, Untyped)
    else if field == 1 && op in t.evex0F then Shape(op, false, true, true, Count(IsImm8Vex0F(op)), 0, Untyped)
    else if field == 3 && op in t.evex0F3A then Shape(op, false, true, true, 1, 0, Untyped)
    else BadOpcode
  }

  // The extra immediate of TEST, chosen by the reg field of its ModRM byte.
  function TestImm(op: byte, modrm: byte, mods: Mods): nat {
    if IsTest(op) && RegField(modrm) == 0 then (if op % 2 == 1 then mods.ddef else 1) else 0
  }

  // The reg field of ModRM refines the type of the group opcodes.
  function ExtKind(t: Tables, s: Shape, modrm: byte): Kind
    requires s.Shape?
  {
    var reg := RegField(modrm);
    if s.multibyte || s.op !in t.opCodeExt then s.kind
    else if Is80To87(s.op) then
      (if reg == 1 || reg == 4 || reg == 6 then Logical else if reg == 7 then Control else s.kind)
    else if IsF6F7(s.op) then
      (if reg == 2 || reg == 3 then Logical else if reg >= 4 then Arithmetic else s.kind)
    else if s.op == 0xFF then
      (if reg == 2 || reg == 3 then Call else if reg == 4 || reg == 5 then Jmp
       else if reg == 6 then Memory else s.kind)
    else s.kind
  }

  function Disp32(mods: Mods): nat { if mods.mdef == 2 then 2 else 4 }

  function Disp(modrm: byte, mods: Mods): nat {
    match ModField(modrm)
    case 0 => if RmField(modrm) == 5 then Disp32(mods) else 0
    case 1 => 1
    case 2 => Disp32(mods)
    case _ => 0
  }

  predicate HasSib(modrm: byte) { ModField(modrm) != 3 && RmField(modrm) == 4 }

  function SibDisp(modrm: byte, sib: byte, mods: Mods): nat {
    if RmField(sib) == 5 && ModField(modrm) == 0 then Disp32(mods) else 0
  }

  // REX.W widens the immediate of MOV r, imm and the offset of MOV moffs.
  function ImmSize(s: Shape, mods: Mods, imm: nat): nat
    requires s.Shape?
  {
    if mods.rexW && !s.multibyte && s.rexImm && IsImm64(s.op) then 8 else imm
  }

  function MemSize(s: Shape, mods: Mods, msize: nat): nat
    requires s.Shape?
  {
    if mods.rexW && !s.multibyte && s.rexImm && IsOff64(s.op) then 8 else msize
  }

  // The NOT/NEG/MUL/DIV branch of the group decoding is dead code.
  lemma F6F7NeverRecognised(v: byte)
    ensures !IsF6F7(v)
  {
    assert v % 4 == 0 ==> v != 0xF6;
  }
}
