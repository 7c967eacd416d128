/**
 How long an instruction is and of what kind, read off its bytes: the layout of sections
 2.1 and 2.3 of Intel SDM Volume 2A in plain numbers, with the source's own departures
 from it (0x67 halves every displacement, the REX.W fix of VEX opcodes).  Nothing here
 counts with the size functions of the decoder.
 */
module DecoderLengths {
  import opened Ld
  import opened Decoder

  // Where the instruction ends that has its last opcode byte at index `at` of w: with the
  // ModRM byte, the SIB byte and the displacement (or, in its stead, a 64-bit offset), and
  // then `imm` bytes.  NoRoom: the ModRM or the SIB byte is not in w.
  datatype Need = NoRoom | EndsAt(n: nat)

  function Tail(w: seq<byte>, at: nat, modrm: bool, moffs: nat, imm: nat, wide: nat, off64: bool): Need {
    if !modrm then EndsAt(at + 1 + (if off64 then 8 else moffs) + imm)
    else if at + 1 >= |w| then NoRoom
    else
      var mod, rm := w[at + 1] / 64, w[at + 1] % 8;
      if mod != 3 && rm == 4 then
        if at + 2 >= |w| then NoRoom
        else
          var disp := if mod == 1 then 1 else if mod == 2 || (mod == 0 && w[at + 2] % 8 == 5) then wide else 0;
          EndsAt(at + 3 + (if off64 then 8 else moffs + disp) + imm)
      else
        var disp := if mod == 1 then 1 else if mod == 2 || (mod == 0 && rm == 5) then wide else 0;
        EndsAt(at + 2 + (if off64 then 8 else moffs + disp) + imm)
  }

  // The verdict d on w is that the instruction ends there.
  predicate Reaches(w: seq<byte>, d: Decoded, need: Need) {
    if need.EndsAt? && need.n <= |w| then d.Complete? && d.len == need.n else d == Incomplete
  }

  // The first k bytes of w are legacy prefixes or REX bytes, and no more.
  predicate Prefixed(t: Tables, w: seq<byte>, k: nat) {
    && k < |w|
    && (forall j | 0 <= j < k ::
          (w[j] in t.prefix && w[j] != 0xC4 && w[j] != 0xC5 && w[j] != 0x62) || 0x40 <= w[j] <= 0x4F)
    && !(0x40 <= w[k] <= 0x4F) && (w[k] in t.prefix ==> w[k] == 0xC4 || w[k] == 0xC5 || w[k] == 0x62)
  }

  // What the prefixes say: the size of a displacement and of an operand, and REX.W.
  function Wide(w: seq<byte>, k: nat): nat
    requires k <= |w|
  {
    if 0x67 in w[..k] then 2 else 4
  }

  function OperandSize(w: seq<byte>, k: nat): nat
    requires k <= |w|
  {
    if 0x66 in w[..k] then 2 else 4
  }

  ghost predicate RexW(w: seq<byte>, k: nat)
    requires k <= |w|
  {
    exists j | 0 <= j < k :: 0x48 <= w[j] <= 0x4F
  }

  lemma PrefixesRead(t: Tables, w: seq<byte>, k: nat)
    requires TablesOk(t) && Prefixed(t, w, k)
    ensures Lead(t, w, 0) == k && ModsOf(w[..k]) == Mods(OperandSize(w, k), Wide(w, k), RexW(w, k))
  {
    LeadIs(t, w, 0, k);
    assert forall b | b in w[..k] :: exists j | 0 <= j < k :: w[j] == b;
    if RexW(w, k) {
      var j :| 0 <= j < k && 0x48 <= w[j] <= 0x4F;
      assert w[..k][j] == w[j] && IsRex(w[j]) && IsRexW(w[j]);
    }
  }

  // The tail of any shape.
  lemma AfterOpcodeReaches(t: Tables, w: seq<byte>, at: nat, mods: Mods, s: Shape)
    requires at < |w| && s.Shape? && (mods.mdef == 2 || mods.mdef == 4)
    ensures var rex := mods.rexW && !s.multibyte && s.rexImm;
      Reaches(w, AfterOpcode(t, w, at, mods, s),
              Tail(w, at, s.modrm, s.moffs, if rex && 0xB8 <= s.op <= 0xBF then 8 else s.imm, mods.mdef,
                   rex && (s.op == 0xA1 || s.op == 0xA3)))
  {
  }

  lemma BadIsInvalid(t: Tables, w: seq<byte>, at: nat, mods: Mods)
    requires at < |w|
    ensures AfterOpcode(t, w, at, mods, BadOpcode) == Invalid
  {
  }

  // ---------------------------------------------------------------- one-byte opcodes

  lemma TailWithoutModrm(w: seq<byte>, at: nat)
    ensures forall moffs, imm, wide, off64 | at + 1 >= |w| ::
      Reaches(w, Incomplete, Tail(w, at, true, moffs, imm, wide, off64))
  {
  }

  lemma OperandSizes(w: seq<byte>, k: nat)
    requires k <= |w|
    ensures Wide(w, k) == 2 || Wide(w, k) == 4
  {
  }

  /** One-byte opcodes: immediates of the tables, the operand-size immediate, that of TEST,
      and the 64-bit immediate and offset of MOV under REX.W. */
  lemma OneByteLength(t: Tables, w: seq<byte>, k: nat)
    requires TablesOk(t) && Prefixed(t, w, k) && w[k] !in t.prefix && w[k] != 0x0F
    ensures w[k] in t.ud1 ==> DecodeOne(t, w) == Invalid
    ensures w[k] !in t.ud1 ==>
      var op, size := w[k], OperandSize(w, k);
      var tables := (if op in t.data1 then 1 else 0) + (if op in t.data2 then 2 else 0)
        + (if op in t.data66 then size else 0);
      var test := if (op == 0xF6 || op == 0xF7) && k + 1 < |w| && w[k + 1] / 8 % 8 == 0
        then (if op == 0xF6 then 1 else size) else 0;
      var imm := if RexW(w, k) && 0xB8 <= op <= 0xBF then 8 else tables + test;
      var moffs := if op == 0xA0 || op == 0xA3 then Wide(w, k) else 0;
      Reaches(w, DecodeOne(t, w), Tail(w, k, op in t.modrm, moffs, imm, Wide(w, k),
                                       RexW(w, k) && (op == 0xA1 || op == 0xA3)))
  {
    hide AfterOpcode, OneByteKind, Tail, Reaches, ModsOf, RexW, Wide, OperandSize;
    PrefixesRead(t, w, k);
    var mods := ModsOf(w[..k]);
    TailWithoutModrm(w, k);
    OperandSizes(w, k);
    var s := OneByteShape(t, w[k], mods);
    BadIsInvalid(t, w, k, mods);
    if s.Shape? {
      var s' := if IsTest(s.op) && k + 1 < |w| then s.(imm := s.imm + TestImm(s.op, w[k + 1], mods)) else s;
      AfterOpcodeReaches(t, w, k, mods, s');
    }
  }

  /** Two-byte opcodes: an immediate byte of the table, and a near jump's displacement. */
  lemma TwoByteLength(t: Tables, w: seq<byte>, k: nat)
    requires TablesOk(t) && Prefixed(t, w, k) && w[k] == 0x0F
    ensures k + 1 >= |w| ==> DecodeOne(t, w) == Incomplete
    ensures k + 1 < |w| && w[k + 1] != 0x38 && w[k + 1] != 0x3A ==>
      var op := w[k + 1];
      if op in t.ud2 then DecodeOne(t, w) == Invalid
      else
        var imm := (if op in t.imm8Two then 1 else 0) + if 0x80 <= op <= 0x8F then OperandSize(w, k) else 0;
        Reaches(w, DecodeOne(t, w), Tail(w, k + 1, op in t.modrm2, 0, imm, Wide(w, k), false))
  {
    hide AfterOpcode, TwoByteKind;
    PrefixesRead(t, w, k);
    if k + 1 < |w| {
      var s := TwoByteShape(t, w[k + 1], ModsOf(w[..k]));
      BadIsInvalid(t, w, k + 1, ModsOf(w[..k]));
      if s.Shape? {
        AfterOpcodeReaches(t, w, k + 1, ModsOf(w[..k]), s);
      }
    }
  }

  /** Three-byte opcodes: none has an immediate in map 0F38, each has one byte in map 0F3A. */
  lemma ThreeByteLength(t: Tables, w: seq<byte>, k: nat)
    requires TablesOk(t) && Prefixed(t, w, k) && w[k] == 0x0F
    requires k + 1 < |w| && (w[k + 1] == 0x38 || w[k + 1] == 0x3A)
    ensures k + 2 >= |w| ==> DecodeOne(t, w) == Incomplete
    ensures k + 2 < |w| ==>
      var op, map38 := w[k + 2], w[k + 1] == 0x38;
      if op in (if map38 then t.ud38 else t.ud3A) then DecodeOne(t, w) == Invalid
      else
        var modrm := op in if map38 then t.modrm38 else t.modrm3A;
        Reaches(w, DecodeOne(t, w), Tail(w, k + 2, modrm, 0, if map38 then 0 else 1, Wide(w, k), false))
  {
    hide AfterOpcode;
    PrefixesRead(t, w, k);
    if k + 2 < |w| {
      var s := if w[k + 1] == 0x38 then Map38Shape(t, w[k + 2]) else Map3AShape(t, w[k + 2]);
      BadIsInvalid(t, w, k + 2, ModsOf(w[..k]));
      if s.Shape? {
        AfterOpcodeReaches(t, w, k + 2, ModsOf(w[..k]), s);
      }
    }
  }

  // The opcodes of VEX map 0F that have an immediate byte.
  const IMM8_0F: set<byte> := {0x70, 0x71, 0x72, 0x73, 0xC2, 0xC4, 0xC5, 0xC6}

  // An opcode under a vector prefix that ends at index `at`.
  ghost predicate VectorTail(w: seq<byte>, k: nat, d: Decoded, at: nat, modrm: bool, imm: nat)
    requires k <= |w| && at < |w|
  {
    Reaches(w, d, Tail(w, at, modrm, 0, if modrm && RexW(w, k) && 0xB8 <= w[at] <= 0xBF then 8 else imm,
                       Wide(w, k), modrm && RexW(w, k) && (w[at] == 0xA1 || w[at] == 0xA3)))
  }

  /** Two-byte VEX: any opcode is taken; 77 has no ModRM byte. */
  lemma Vex2Length(t: Tables, w: seq<byte>, k: nat)
    requires TablesOk(t) && Prefixed(t, w, k) && w[k] == 0xC5
    ensures k + 2 >= |w| ==> DecodeOne(t, w) == Incomplete
    ensures k + 2 < |w| ==>
      VectorTail(w, k, DecodeOne(t, w), k + 2, w[k + 2] != 0x77, if w[k + 2] in IMM8_0F then 1 else 0)
  {
    hide AfterOpcode;
    PrefixesRead(t, w, k);
    if k + 2 < |w| {
      AfterOpcodeReaches(t, w, k + 2, ModsOf(w[..k]), Vex0FShape(w[k + 2]));
    }
  }

  /** Three-byte VEX: the low five bits of its second byte choose the map. */
  lemma Vex3Length(t: Tables, w: seq<byte>, k: nat)
    requires TablesOk(t) && Prefixed(t, w, k) && w[k] == 0xC4
    ensures k + 3 >= |w| ==> DecodeOne(t, w) == Incomplete
    ensures k + 3 < |w| ==>
      var op, opmap := w[k + 3], w[k + 1] % 32;
      if opmap == 2 && op in t.vex0F38 then
        VectorTail(w, k, DecodeOne(t, w), k + 3, true, if op == 0x13 then 1 else 0)
      else if opmap == 3 && op in t.vex0F3A then
        VectorTail(w, k, DecodeOne(t, w), k + 3, true, if 0x4A <= op <= 0x4C then 0 else 1)
      else if opmap == 1 && op in t.vex0F then
        VectorTail(w, k, DecodeOne(t, w), k + 3, op != 0x77, if op in IMM8_0F then 1 else 0)
      else DecodeOne(t, w) == Invalid
  {
    hide AfterOpcode;
    PrefixesRead(t, w, k);
    if k + 3 < |w| {
      var s := Vex3Shape(t, w[k + 1], w[k + 3]);
      BadIsInvalid(t, w, k + 3, ModsOf(w[..k]));
      if s.Shape? {
        AfterOpcodeReaches(t, w, k + 3, ModsOf(w[..k]), s);
      }
    }
  }

  /** EVEX: the low two bits of its second byte choose the map. */
  lemma EvexLength(t: Tables, w: seq<byte>, k: nat)
    requires TablesOk(t) && Prefixed(t, w, k) && w[k] == 0x62
    ensures k + 4 >= |w| ==> DecodeOne(t, w) == Incomplete
    ensures k + 4 < |w| ==>
      var op, opmap := w[k + 4], w[k + 1] % 4;
      if opmap == 2 && op in t.evex0F38 then VectorTail(w, k, DecodeOne(t, w), k + 4, true, 0)
      else if opmap == 3 && op in t.evex0F3A then VectorTail(w, k, DecodeOne(t, w), k + 4, true, 1)
      else if opmap == 1 && op in t.evex0F then
        VectorTail(w, k, DecodeOne(t, w), k + 4, true, if op in IMM8_0F then 1 else 0)
      else DecodeOne(t, w) == Invalid
  {
    hide AfterOpcode;
    PrefixesRead(t, w, k);
    if k + 4 < |w| {
      var s := EvexShape(t, w[k + 1], w[k + 4]);
      BadIsInvalid(t, w, k + 4, ModsOf(w[..k]));
      if s.Shape? {
        AfterOpcodeReaches(t, w, k + 4, ModsOf(w[..k]), s);
      }
    }
  }

  /** Prefixes to the end of the window are no instruction yet. */
  lemma OnlyPrefixes(t: Tables, w: seq<byte>)
    requires TablesOk(t)
    requires forall j | 0 <= j < |w| ::
      (w[j] in t.prefix && w[j] != 0xC4 && w[j] != 0xC5 && w[j] != 0x62) || 0x40 <= w[j] <= 0x4F
    ensures DecodeOne(t, w) == Incomplete
  {
    LeadIs(t, w, 0, |w|);
  }

  // ---------------------------------------------------------------- kinds

  // The kind that goes with the first of the tables that holds the opcode, per map.
  predicate OneByteListed(t: Tables, op: byte, kind: Kind) {
    var plain := t.arith1 + t.control1 + t.logical1 + t.memory1 + t.system1;
    && (kind == Arithmetic <==> op in t.arith1)
    && (kind == Control <==> op in t.control1 - t.arith1)
    && (kind == Logical <==> op in t.logical1 - (t.arith1 + t.control1))
    && (kind == Memory <==> op in t.memory1 - (t.arith1 + t.control1 + t.logical1))
    && (kind == System <==> op in t.system1 - (t.arith1 + t.control1 + t.logical1 + t.memory1))
    && (kind == Jcc <==> op in t.jcc1 - plain)
    && (kind == Jmp <==> op in t.jmp1 - (plain + t.jcc1))
    && (kind == Call <==> op in t.call1 - (plain + t.jcc1 + t.jmp1))
    && (kind == Ret <==> op in t.ret1 - (plain + t.jcc1 + t.jmp1 + t.call1))
    && kind != Untyped
  }

  predicate TwoByteListed(t: Tables, op: byte, kind: Kind) {
    && (kind == Arithmetic <==> op in t.arith2)
    && (kind == Control <==> op in t.control2 - t.arith2)
    && (kind == Logical <==> op in t.logical2 - (t.arith2 + t.control2))
    && (kind == Memory <==> op in t.memory2 - (t.arith2 + t.control2 + t.logical2))
    && (kind == System <==> op in t.system2 - (t.arith2 + t.control2 + t.logical2 + t.memory2))
    && (kind == Jcc <==> op in t.jcc2 - (t.arith2 + t.control2 + t.logical2 + t.memory2 + t.system2))
    && kind in {Arithmetic, Control, Logical, Memory, System, Jcc, Other}
  }

  predicate Map38Listed(t: Tables, op: byte, kind: Kind) {
    && (kind == Arithmetic <==> op in t.arith38)
    && (kind == Memory <==> op in t.memory38 - t.arith38)
    && (kind == Control <==> op in t.control38 - (t.arith38 + t.memory38))
    && kind in {Arithmetic, Memory, Control, Other}
  }

  predicate Map3AListed(t: Tables, op: byte, kind: Kind) {
    && (kind == Arithmetic <==> op in t.arith3A)
    && (kind == Memory <==> op in t.memory3A - t.arith3A)
    && kind in {Arithmetic, Memory, Other}
  }

  // The opcode groups, decided by the reg field of the ModRM byte.
  datatype Group = NoGroup | Group(kind: Kind)

  function GroupOf(t: Tables, op: byte, modrm: byte): Group {
    var reg := modrm / 8 % 8;
    if op !in t.opCodeExt then NoGroup
    else if op == 0xFF then
      (match reg
       case 2 => Group(Call)
       case 3 => Group(Call)
       case 4 => Group(Jmp)
       case 5 => Group(Jmp)
       case 6 => Group(Memory)
       case _ => NoGroup)
    else if 0x80 <= op <= 0x87 then
      (match reg
       case 1 => Group(Logical)
       case 4 => Group(Logical)
       case 6 => Group(Logical)
       case 7 => Group(Control)
       case _ => NoGroup)
    else NoGroup
  }

  // The kind of an opcode at index `at` that is not in an escape map.
  ghost predicate GroupedKind(t: Tables, w: seq<byte>, at: nat, modrm: bool, kind: Kind, listed: Kind)
    requires at < |w|
  {
    if modrm && at + 1 < |w| && GroupOf(t, w[at], w[at + 1]).Group? then kind == GroupOf(t, w[at], w[at + 1]).kind
    else kind == listed
  }

  lemma AfterOpcodeKind(t: Tables, w: seq<byte>, at: nat, mods: Mods, s: Shape)
    requires at < |w| && s.Shape? && s.op == w[at] && AfterOpcode(t, w, at, mods, s).Complete?
    ensures var kind := AfterOpcode(t, w, at, mods, s).kind;
      if s.multibyte then kind == s.kind else GroupedKind(t, w, at, s.modrm, kind, s.kind)
  {
    if s.modrm && !s.multibyte {
      F6F7NeverRecognised(s.op);
    }
  }

  /** The kind of an instruction with a one-byte opcode. */
  lemma OneByteKindIs(t: Tables, w: seq<byte>, k: nat) returns (listed: Kind)
    requires TablesOk(t) && Prefixed(t, w, k) && w[k] !in t.prefix && w[k] != 0x0F && DecodeOne(t, w).Complete?
    ensures OneByteListed(t, w[k], listed)
    ensures GroupedKind(t, w, k, w[k] in t.modrm, DecodeOne(t, w).kind, listed)
  {
    hide AfterOpcode, OneByteKind, OneByteListed, GroupedKind;
    PrefixesRead(t, w, k);
    var mods := ModsOf(w[..k]);
    var s := OneByteShape(t, w[k], mods);
    BadIsInvalid(t, w, k, mods);
    var s' := if IsTest(s.op) then s.(imm := s.imm + TestImm(s.op, w[k + 1], mods)) else s;
    AfterOpcodeKind(t, w, k, mods, s');
    OneByteKindListed(t, w[k]);
    listed := OneByteKind(t, w[k]);
  }

  lemma OneByteKindListed(t: Tables, op: byte)
    ensures OneByteListed(t, op, OneByteKind(t, op))
  {
  }

  /** The kind of an instruction with a two-byte or a three-byte opcode. */
  lemma EscapedKindIs(t: Tables, w: seq<byte>, k: nat)
    requires TablesOk(t) && Prefixed(t, w, k) && w[k] == 0x0F && DecodeOne(t, w).Complete?
    ensures k + 1 < |w| && (w[k + 1] == 0x38 || w[k + 1] == 0x3A ==> k + 2 < |w|)
    ensures w[k + 1] == 0x38 ==> Map38Listed(t, w[k + 2], DecodeOne(t, w).kind)
    ensures w[k + 1] == 0x3A ==> Map3AListed(t, w[k + 2], DecodeOne(t, w).kind)
    ensures w[k + 1] != 0x38 && w[k + 1] != 0x3A ==> TwoByteListed(t, w[k + 1], DecodeOne(t, w).kind)
  {
    hide AfterOpcode, TwoByteListed, TwoByteKind;
    PrefixesRead(t, w, k);
    var mods := ModsOf(w[..k]);
    if w[k + 1] == 0x38 || w[k + 1] == 0x3A {
      var s := if w[k + 1] == 0x38 then Map38Shape(t, w[k + 2]) else Map3AShape(t, w[k + 2]);
      BadIsInvalid(t, w, k + 2, mods);
      AfterOpcodeKind(t, w, k + 2, mods, s);
    } else {
      BadIsInvalid(t, w, k + 1, mods);
      AfterOpcodeKind(t, w, k + 1, mods, TwoByteShape(t, w[k + 1], mods));
      TwoByteKindListed(t, w[k + 1]);
    }
  }

  lemma TwoByteKindListed(t: Tables, op: byte)
    ensures TwoByteListed(t, op, TwoByteKind(t, op))
  {
  }

  /** A vector instruction has no kind of its own, but its opcode takes part in the groups. */
  lemma VectorKindIs(t: Tables, w: seq<byte>, k: nat)
    requires TablesOk(t) && Prefixed(t, w, k) && w[k] in {0x62, 0xC4, 0xC5} && DecodeOne(t, w).Complete?
    ensures var at := k + if w[k] == 0x62 then 4 else if w[k] == 0xC4 then 3 else 2;
      && at < |w|
      && GroupedKind(t, w, at, w[k] == 0x62 || w[at] != 0x77 || (w[k] == 0xC4 && w[k + 1] % 32 != 1),
                     DecodeOne(t, w).kind, Untyped)
  {
    hide AfterOpcode, GroupedKind;
    PrefixesRead(t, w, k);
    var mods, at := ModsOf(w[..k]), k + if w[k] == 0x62 then 4 else if w[k] == 0xC4 then 3 else 2;
    BadIsInvalid(t, w, at, mods);
    AfterOpcodeKind(t, w, at, mods, if w[k] == 0x62 then EvexShape(t, w[k + 1], w[at])
                                    else if w[k] == 0xC4 then Vex3Shape(t, w[k + 1], w[at]) else Vex0FShape(w[at]));
  }
}
