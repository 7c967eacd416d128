/**
 Instructions of the tables of ld.h, byte by byte, with their lengths and kinds.
 */
module LdEncodings {
  import opened Ld
  import opened LdTables
  import opened LdTablesFacts
  import opened Decoder
  import opened DecoderLengths
  import opened Scanner

  // A one-byte opcode without prefixes and REX.W.
  lemma OneByte(w: seq<byte>)
    requires w != [] && w[0] !in LD.prefix && w[0] != 0x0F && w[0] / 16 != 4
    ensures Prefixed(LD, w, 0) && TablesOk(LD) && Wide(w, 0) == 4 && OperandSize(w, 0) == 4 && !RexW(w, 0)
  {
    LdTablesOk();
  }

  /** 8B, a load: the ModRM byte alone, with a SIB byte, and with the displacements. */
  lemma MovLoads(w: seq<byte>)
    requires |w| >= 7 && w[0] == 0x8B
    ensures w[1] == 0xC3 ==> DecodeOne(LD, w) == Complete(2, Memory)
    ensures w[1] == 0x45 ==> DecodeOne(LD, w) == Complete(3, Memory)
    ensures w[1] == 0x85 || w[1] == 0x05 ==> DecodeOne(LD, w) == Complete(6, Memory)
    ensures w[1] == 0x04 && w[2] == 0x24 ==> DecodeOne(LD, w) == Complete(3, Memory)
    ensures w[1] == 0x44 ==> DecodeOne(LD, w) == Complete(4, Memory)
    ensures w[1] == 0x84 || (w[1] == 0x04 && w[2] == 0x25) ==> DecodeOne(LD, w) == Complete(7, Memory)
  {
    hide DecodeOne;
    LoadBits();
    OneByte(w);
    OneByteLength(LD, w, 0);
    if DecodeOne(LD, w).Complete? {
      var listed := OneByteKindIs(LD, w, 0);
    }
  }

  lemma LoadBits()
    ensures 0x8B !in LD.prefix && 0x8B !in LD.ud1 && 0x8B in LD.modrm && 0x8B !in LD.opCodeExt
    ensures 0x8B !in LD.data1 && 0x8B !in LD.data2 && 0x8B !in LD.data66
    ensures 0x8B !in LD.arith1 + LD.control1 + LD.logical1 && 0x8B in LD.memory1
  {
    assert !BitAt(PREFIX_T, 0x8B) && !BitAt(UD1_T, 0x8B) && BitAt(MODRM_T, 0x8B) && !BitAt(OPCODEEXT_T, 0x8B);
    assert !BitAt(DATA1_T, 0x8B) && !BitAt(DATA2_T, 0x8B) && !BitAt(DATA66_T, 0x8B);
    assert !BitAt(ARITH1_T, 0x8B) && !BitAt(CONTROL1_T, 0x8B) && !BitAt(LOGICAL1_T, 0x8B) && BitAt(MEMORY1_T, 0x8B);
  }

  /** E8, a call, has a 32-bit displacement for its operand. */
  lemma NearCall(w: seq<byte>)
    requires w != [] && w[0] == 0xE8
    ensures DecodeOne(LD, w) == if |w| >= 5 then Complete(5, Call) else Incomplete
  {
    hide DecodeOne;
    CallBits();
    OneByte(w);
    OneByteLength(LD, w, 0);
    if DecodeOne(LD, w).Complete? {
      var listed := OneByteKindIs(LD, w, 0);
    }
  }

  lemma CallBits()
    ensures 0xE8 !in LD.prefix && 0xE8 !in LD.ud1 && 0xE8 !in LD.modrm
    ensures 0xE8 !in LD.data1 && 0xE8 !in LD.data2 && 0xE8 in LD.data66
    ensures 0xE8 !in LD.arith1 + LD.control1 + LD.logical1 + LD.memory1 + LD.system1 + LD.jcc1 + LD.jmp1
    ensures 0xE8 in LD.call1
  {
    assert !BitAt(PREFIX_T, 0xE8) && !BitAt(UD1_T, 0xE8) && !BitAt(MODRM_T, 0xE8);
    assert !BitAt(DATA1_T, 0xE8) && !BitAt(DATA2_T, 0xE8) && BitAt(DATA66_T, 0xE8);
    assert !BitAt(ARITH1_T, 0xE8) && !BitAt(CONTROL1_T, 0xE8) && !BitAt(LOGICAL1_T, 0xE8) && !BitAt(MEMORY1_T, 0xE8);
    assert !BitAt(SYSTEM1_T, 0xE8) && !BitAt(JCC1_T, 0xE8) && !BitAt(JMP1_T, 0xE8) && BitAt(CALL1_T, 0xE8);
  }

  /** C3, a return. */
  lemma Return(w: seq<byte>)
    requires w != [] && w[0] == 0xC3
    ensures DecodeOne(LD, w) == Complete(1, Ret)
  {
    hide DecodeOne;
    ReturnBits();
    OneByte(w);
    OneByteLength(LD, w, 0);
    var listed := OneByteKindIs(LD, w, 0);
  }

  lemma ReturnBits()
    ensures 0xC3 !in LD.prefix && 0xC3 !in LD.ud1 && 0xC3 !in LD.modrm
    ensures 0xC3 !in LD.data1 && 0xC3 !in LD.data2 && 0xC3 !in LD.data66
    ensures 0xC3 !in LD.arith1 + LD.control1 + LD.logical1 + LD.memory1 + LD.system1 + LD.jcc1 + LD.jmp1 + LD.call1
    ensures 0xC3 in LD.ret1
  {
    assert !BitAt(PREFIX_T, 0xC3) && !BitAt(UD1_T, 0xC3) && !BitAt(MODRM_T, 0xC3);
    assert !BitAt(DATA1_T, 0xC3) && !BitAt(DATA2_T, 0xC3) && !BitAt(DATA66_T, 0xC3);
    assert !BitAt(ARITH1_T, 0xC3) && !BitAt(CONTROL1_T, 0xC3) && !BitAt(LOGICAL1_T, 0xC3) && !BitAt(MEMORY1_T, 0xC3);
    assert !BitAt(SYSTEM1_T, 0xC3) && !BitAt(JCC1_T, 0xC3) && !BitAt(JMP1_T, 0xC3) && !BitAt(CALL1_T, 0xC3);
    assert BitAt(RET1_T, 0xC3);
  }

  /** mov eax, [rbp - 8]; ret: one search, which ends on the RET. */
  lemma LoadThenReturn(w: seq<byte>)
    requires |w| >= 7 && w[0] == 0x8B && w[1] == 0x45 && w[3] == 0xC3
    ensures Scan(LD, w) == Found(4, Ret, ZERO.(memory := 1, control := 1))
  {
    hide Scan, DecodeOne;
    LoadAndReturn(w);
    ScanOfTwo(LD, w);
  }

  lemma LoadAndReturn(w: seq<byte>)
    requires |w| >= 7 && w[0] == 0x8B && w[1] == 0x45 && w[3] == 0xC3
    ensures DecodeOne(LD, w) == Complete(3, Memory) && DecodeOne(LD, w[3..]) == Complete(1, Ret)
  {
    hide DecodeOne;
    MovLoads(w);
    Return(w[3..]);
  }

  lemma ScanOfTwo(t: Tables, w: seq<byte>)
    requires |w| >= 4 && DecodeOne(t, w) == Complete(3, Memory) && DecodeOne(t, w[3..]) == Complete(1, Ret)
    ensures Scan(t, w) == Found(4, Ret, ZERO.(memory := 1, control := 1))
  {
    hide DecodeOne;
  }

  /** B8 to BF, a move of an immediate: 32 bits, 16 under 66, 64 under REX.W. */
  lemma MovImmediate(w: seq<byte>)
    requires |w| >= 10
    ensures w[0] == 0xB8 ==> DecodeOne(LD, w).Complete? && DecodeOne(LD, w).len == 5
    ensures w[0] == 0x66 && w[1] == 0xB8 ==> DecodeOne(LD, w).Complete? && DecodeOne(LD, w).len == 4
    ensures w[0] == 0x48 && w[1] == 0xB8 ==> DecodeOne(LD, w).Complete? && DecodeOne(LD, w).len == 10
  {
    hide DecodeOne;
    LdTablesOk();
    ImmediateBits();
    if w[0] == 0xB8 {
      OneByteLength(LD, w, 0);
    } else if w[0] in {0x66, 0x48} && w[1] == 0xB8 {
      assert w[..1] == [w[0]];
      OneByteLength(LD, w, 1);
    }
  }

  lemma ImmediateBits()
    ensures 0xB8 !in LD.prefix && 0xB8 !in LD.ud1 && 0xB8 !in LD.modrm
    ensures 0xB8 !in LD.data1 && 0xB8 !in LD.data2 && 0xB8 in LD.data66
    ensures 0x66 in LD.prefix && 0x48 !in LD.prefix
  {
    assert !BitAt(PREFIX_T, 0xB8) && !BitAt(UD1_T, 0xB8) && !BitAt(MODRM_T, 0xB8);
    assert !BitAt(DATA1_T, 0xB8) && !BitAt(DATA2_T, 0xB8) && BitAt(DATA66_T, 0xB8);
    assert BitAt(PREFIX_T, 0x66) && !BitAt(PREFIX_T, 0x48);
  }
}
