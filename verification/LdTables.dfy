/**
 The bits of the opcode tables of libs/ld.h.

 A table is written as sixteen rows of sixteen digits, one row for each high
 nibble and one digit for each low nibble, in the order in which ld.h writes the
 arguments of BITMASK32.
 */
module LdTables {
  import opened Ld

  // The weight of digit k, counted from the left, in a row of sixteen decimal digits.
  function Weight(k: nat): (r: nat)
    ensures r >= 1
  {
    match k
    case 0 => 1_000_000_000_000_000
    case 1 => 100_000_000_000_000
    case 2 => 10_000_000_000_000
    case 3 => 1_000_000_000_000
    case 4 => 100_000_000_000
    case 5 => 10_000_000_000
    case 6 => 1_000_000_000
    case 7 => 100_000_000
    case 8 => 10_000_000
    case 9 => 1_000_000
    case 10 => 100_000
    case 11 => 10_000
    case 12 => 1_000
    case 13 => 100
    case 14 => 10
    case _ => 1
  }

  predicate BitAt(rows: seq<nat>, v: byte) {
    v / 16 < |rows| && (rows[v / 16] / Weight(v % 16)) % 10 == 1
  }

  function TableOf(rows: seq<nat>): set<byte> {
    set v: byte | 0 <= v < 256 && BitAt(rows, v) :: v
  }

  // prefix_t
  const PREFIX_T: seq<nat> := [
    00000000_00000000, 00000000_00000000, 00000010_00000010, 00000010_00000010,
    00000000_00000000, 00000000_00000000, 00101111_00000000, 00000000_00000000,
    00000000_00000000, 00000000_00010000, 00000000_00000000, 00000000_00000000,
    00001100_00000000, 00000000_00000000, 00000000_00000000, 10110000_00000000]

  // modrm_t
  const MODRM_T: seq<nat> := [
    11110000_11110000, 11110000_11110000, 11110000_11110000, 11110000_11110000,
    00000000_00000000, 00000000_00000000, 00010000_01010000, 00000000_00000000,
    11111111_11111111, 00000000_00000000, 00000000_00000000, 00000000_00000000,
    11000011_00000000, 11110000_11111111, 00000000_00000000, 00000011_00000011]

  // data1_t
  const DATA1_T: seq<nat> := [
    00001000_00001000, 00001000_00001000, 00001000_00001000, 00001000_00001000,
    00000000_00000000, 00000000_00000000, 00000000_00110000, 11111111_11111111,
    10010000_00000000, 00000000_00000000, 00000000_10000000, 11111111_00000000,
    11000010_10000100, 00000000_00000000, 11111111_00010000, 00000000_00000000]

  // data2_t
  const DATA2_T: seq<nat> := [
    00000000_00000000, 00000000_00000000, 00000000_00000000, 00000000_00000000,
    00000000_00000000, 00000000_00000000, 00000000_00000000, 00000000_00000000,
    00000000_00000000, 00000000_00000000, 00000000_00000000, 00000000_00000000,
    00100000_10100000, 00000000_00000000, 00000000_00000000, 00000000_00000000]

  // data66_t
  const DATA66_T: seq<nat> := [
    00000100_00000100, 00000100_00000100, 00000100_00000100, 00000100_00000100,
    00000000_00000000, 00000000_00000000, 00000000_11000000, 00000000_00000000,
    01000000_00000000, 00000000_00100000, 00000000_01000000, 00000000_11111111,
    00000001_00000000, 00000000_00000000, 00000000_11000000, 00000000_00000000]

  // one_byte_ud_t
  const UD1_T: seq<nat> := [
    00000011_00000010, 00000011_00000011, 00000001_00000001, 00000001_00000001,
    11111111_11111111, 00000000_00000000, 11000000_00000000, 00000000_00000000,
    00100000_00000000, 00000000_00100000, 00000000_00000000, 00000000_00000000,
    00000000_00000000, 00001110_00000000, 00000000_00100000, 00000000_00000000]

  // one_byte_arith_t
  const ARITH1_T: seq<nat> := [
    11111100_00000000, 11111100_11111100, 00000000_11111100, 00000000_00000000,
    00000000_00000000, 00000000_00000000, 00000000_01010000, 00000000_00000000,
    11010000_00000000, 00000000_00000000, 00000000_00000000, 00000000_00000000,
    00000000_00000000, 00000000_10001010, 00000000_00000000, 00000011_00000011]

  // one_byte_jcc_t
  const JCC1_T: seq<nat> := [
    00000000_00000000, 00000000_00000000, 00000000_00000000, 00000000_00000000,
    00000000_00000000, 00000000_00000000, 00000000_00000000, 11111111_11111111,
    00000000_00000000, 00000000_00000000, 00000000_00000000, 00000000_00000000,
    00000000_00000000, 00000000_00000000, 00010000_00000000, 00000000_00000000]

  // one_byte_jmp_t
  const JMP1_T: seq<nat> := [
    00000000_00000000, 00000000_00000000, 00000000_00000000, 00000000_00000000,
    00000000_00000000, 00000000_00000000, 00000000_00000000, 00000000_00000000,
    00000000_00000000, 00000000_00000000, 00000000_00000000, 00000000_00000000,
    00000000_00000000, 00000000_00000000, 00000000_01010000, 00000000_00000001]

  // one_byte_ret_t
  const RET1_T: seq<nat> := [
    00000000_00000000, 00000000_00000000, 00000000_00000000, 00000000_00000000,
    00000000_00000000, 00000000_00000000, 00000000_00000000, 00000000_00000000,
    00000000_00000000, 00000000_00000000, 00000000_00000000, 00000000_00000000,
    00110000_00110001, 00000000_00000000, 00000000_00000000, 00000000_00000000]

  // one_byte_call_t
  const CALL1_T: seq<nat> := [
    00000000_00000000, 00000000_00000000, 00000000_00000000, 00000000_00000000,
    00000000_00000000, 00000000_00000000, 00000000_00000000, 00000000_00000000,
    00000000_00000000, 00000000_00000000, 00000000_00000000, 00000000_00000000,
    00000000_00000000, 00000000_00000000, 00000000_10000000, 00000000_00000001]

  // one_byte_control_t
  const CONTROL1_T: seq<nat> := [
    00000000_00000000, 00000000_00000000, 00000000_00000000, 00000000_11111100,
    00000000_00000000, 00000000_00000000, 00000000_00000000, 00000000_00000000,
    11011100_00000000, 00000000_00000000, 00000011_11000011, 00000000_00000000,
    00000000_00000000, 00000000_00000000, 11100000_00000000, 00000111_11111100]

  // one_byte_logical_t
  const LOGICAL1_T: seq<nat> := [
    00000000_11111100, 00000000_00000000, 11111100_00000000, 11111100_00000000,
    00000000_00000000, 00000000_00000000, 00000000_00000000, 00000000_00000000,
    11010000_00000000, 00000000_00000000, 00000000_00000000, 00000000_00000000,
    11000000_00000000, 11100000_00000000, 00000000_00000000, 00000011_00000000]

  // one_byte_memory_t
  const MEMORY1_T: seq<nat> := [
    00000000_00000000, 00000000_00000000, 00000000_00000000, 00000000_00000000,
    00000000_00000000, 00000000_00000000, 00000000_00000000, 00000000_00000000,
    00000011_11111111, 01111111_11000011, 11111100_00111100, 11111111_11111111,
    00000011_11000000, 00000001_01110101, 00000000_00000000, 00000000_00000001]

  // one_byte_system_t
  const SYSTEM1_T: seq<nat> := [
    00000000_00000000, 00000000_00000000, 00000000_00000000, 00000000_00000000,
    00000000_00000000, 00000000_00000000, 00000000_00001111, 00000000_00000000,
    00000000_00010000, 00000000_00000000, 00000000_00000000, 00000000_00000000,
    00000000_00001110, 00000000_00000000, 00001111_00001111, 10000100_00000000]

  // modrm2_t
  const MODRM2_T: seq<nat> := [
    11110000_00000000, 11111111_11111111, 11110000_11111111, 00000000_00000000,
    11111111_11111111, 11111111_11111111, 11111111_11111111, 11111110_11111111,
    00000000_00000000, 11111111_11111111, 00011100_00011111, 11111111_11111111,
    11111111_00000000, 11111111_11111111, 11111111_11111111, 11111111_11111111]

  // data1_2
  const IMM8TWO_T: seq<nat> := [
    00000000_00000000, 00000000_00000000, 00000000_00000000, 00000000_00000000,
    00000000_00000000, 00000000_00000000, 00000000_00000000, 11110000_00000000,
    00000000_00000000, 00000000_00000000, 00001000_00001000, 00000000_00100000,
    00101110_00000000, 00000000_00000000, 00000000_00000000, 00000000_00000000]

  // two_byte_ud_t
  const UD2_T: seq<nat> := [
    00001000_00101011, 00000000_00000000, 00001111_00000000, 00000010_01011111,
    00000000_00000000, 00000000_00000000, 00000000_00000000, 00000000_00110000,
    00000000_00000000, 00000000_00000000, 00000011_00000000, 00000000_00000000,
    00000000_00000000, 00000000_00000000, 00000000_00000000, 00000000_00000001]

  // two_byte_arithmetic_t
  const ARITH2_T: seq<nat> := [
    00000000_00000000, 00000000_00000000, 00000000_00000000, 00000000_00000000,
    00000000_00000000, 11100000_11001111, 00000000_00000000, 01110000_00001100,
    00000000_00000000, 00000000_00000000, 00001100_00001101, 00000000_00000000,
    11000000_00000000, 11111100_11101110, 11111100_11101110, 01111110_11111110]

  // two_byte_jcc_t
  const JCC2_T: seq<nat> := [
    00000000_00000000, 00000000_00000000, 00000000_00000000, 00000000_00000000,
    00000000_00000000, 00000000_00000000, 00000000_00000000, 00000000_00000000,
    11111111_11111111, 00000000_00000000, 00000000_00000000, 00000000_00000000,
    00000000_00000000, 00000000_00000000, 00000000_00000000, 00000000_00000000]

  // two_byte_control_t
  const CONTROL2_T: seq<nat> := [
    00000000_00000000, 00000000_00000000, 00000000_00000000, 00000000_00000000,
    11111111_11111111, 00000000_00000000, 00000000_00000000, 00001110_00000000,
    00000000_00000000, 11111111_11111111, 00000000_00000000, 11000000_00000000,
    00100001_00000000, 00000000_00000000, 00000000_00000000, 00000000_00000000]

  // two_byte_logical_t
  const LOGICAL2_T: seq<nat> := [
    00000000_00000000, 00000000_00000000, 00000000_00000000, 00000000_00000000,
    00000000_00000000, 00001111_00000000, 00000000_00000000, 00000000_00000000,
    00000000_00000000, 00000000_00000000, 00000000_00000000, 00000000_00000000,
    00000000_00000000, 00000000_00010001, 00000000_00010001, 00000000_00000000]

  // two_byte_memory_t
  const MEMORY2_T: seq<nat> := [
    00110000_00000000, 11110011_00000000, 11110000_11010000, 00000000_00000000,
    00000000_00000000, 10000000_00000000, 00000000_00000011, 00000000_00000011,
    00000000_00000000, 00000000_00000000, 11010000_11010000, 00111111_00111111,
    00011100_11111111, 00000010_00000000, 00000001_00000000, 00000001_00000000]

  // two_byte_system_t
  const SYSTEM2_T: seq<nat> := [
    11000111_11010000, 00000000_00000000, 00000000_00000000, 11111100_00000000,
    00000000_00000000, 00000000_00000000, 00000000_00000000, 00000000_11000000,
    00000000_00000000, 00000000_00000000, 00100000_00100010, 00000000_01000000,
    00000000_00000000, 00000000_00000000, 00000000_00000000, 00000000_00000001]

  // modrm38_t
  const MODRM38_T: seq<nat> := [
    11111111_11110000, 10001101_00001110, 11111100_11110000, 11111101_11111111,
    11000000_00000000, 00000000_00000000, 00000000_00000000, 00000000_00000000,
    11100000_00000000, 00000000_00000000, 00000000_00000000, 00000000_00000000,
    00000000_11111100, 00000000_00011111, 00000000_00000000, 11010010_00000000]

  // three_byte_038_ud_t
  const UD38_T: seq<nat> := [
    00000000_00001111, 01110010_11110000, 00000011_00001111, 00000010_00000000,
    00111111_11111111, 11111111_11111111, 11111111_11111111, 11111111_11111111,
    00011111_11111111, 11111111_11111111, 11111111_11111111, 11111111_11111111,
    11111111_00000011, 11111111_11100000, 11111111_11111111, 00101101_11111111]

  // three_byte_038_arithmetic_t
  const ARITH38_T: seq<nat> := [
    11111111_00010000, 10000000_00001110, 00000000_10000000, 00000000_11111111,
    00000000_00000000, 11000110_00000000, 00000000_00000000, 00000000_00000000,
    00000000_00000000, 00000000_00000000, 00000000_00000000, 00000000_00000000,
    00000000_00000000, 00000000_00000000, 00000000_00000000, 00000010_00000000]

  // three_byte_038_memory_t
  const MEMORY38_T: seq<nat> := [
    00000000_00000000, 00000000_00000000, 11111100_00100000, 11111100_00000000,
    00000000_00000000, 00000000_00000000, 00000000_00000000, 00000000_00000000,
    00000000_00000000, 00000000_00000000, 00000000_00000000, 00000000_00000000,
    00000000_00000000, 00000000_00000000, 00000000_00000000, 11000000_00000000]

  // three_byte_038_control_t
  const CONTROL38_T: seq<nat> := [
    00000000_00000000, 00000001_00000000, 00000000_01000000, 00000001_00000000,
    00000000_00000000, 00000000_00000000, 00000000_00000000, 00000000_00000000,
    00000000_00000000, 00000000_00000000, 00000000_00000000, 00000000_00000000,
    00000000_00000000, 00000000_00000000, 00000000_00000000, 00000000_00000000]

  // modrm3a_t
  const MODRM3A_T: seq<nat> := [
    00000000_11111111, 00001111_00000000, 11100000_00000000, 00000000_00000000,
    11101000_00000000, 00000000_00000000, 11110000_00000000, 00000000_00000000,
    00000000_00000000, 00000000_00000000, 00000000_00000000, 00000000_00000000,
    00000000_00001000, 00000000_00000001, 00000000_00000000, 00000000_00000000]

  // three_byte_03A_ud_t
  const UD3A_T: seq<nat> := [
    11111111_00000000, 11110000_11111111, 00011111_11111111, 11111111_11111111,
    00010111_11111111, 11111111_11111111, 00001111_11111111, 11111111_11111111,
    11111111_11111111, 11111111_11111111, 11111111_11111111, 11111111_11111111,
    11111111_11110111, 11111111_11111110, 11111111_11111111, 11111111_11111111]

  // three_byte_03A_arithmetic_t
  const ARITH3A_T: seq<nat> := [
    00000000_00000000, 00000000_00000000, 00000000_00000000, 00000000_00000000,
    11111000_00000000, 00000000_00000000, 00000000_00000000, 00000000_00000000,
    00000000_00000000, 00000000_00000000, 00000000_00000000, 00000000_00000000,
    00000000_00000000, 00000000_00000000, 00000000_00000000, 00000000_00000000]

  // three_byte_03A_memory_t
  const MEMORY3A_T: seq<nat> := [
    00000000_00000000, 00001111_00000000, 11100000_00000000, 00000000_00000000,
    00000000_00000000, 00000000_00000000, 00000000_00000000, 00000000_00000000,
    00000000_00000000, 00000000_00000000, 00000000_00000000, 00000000_00000000,
    00000000_00000000, 00000000_00000000, 00000000_00000000, 00000000_00000000]

  // vex_0F3A_t
  const VEX0F3A_T: seq<nat> := [
    11101110_11111111, 00001111_11000100, 11100000_00000000, 00000000_11000000,
    11101010_00111000, 00000000_00000000, 11110000_00000000, 00000000_00000000,
    00000000_00000000, 00000000_00000000, 00000000_00000000, 00000000_00000000,
    00000000_00001000, 00000000_00000001, 00000000_00000000, 10000000_00000000]

  // vex_0F38_t
  const VEX0F38_T: seq<nat> := [
    11111111_11111111, 10011111_11101110, 11111100_11111111, 11111111_11111111,
    11000111_00000000, 00000000_11100000, 00000000_00000000, 00000000_11000000,
    11100000_00001010, 11110011_11111111, 00000011_11111111, 00000011_11111111,
    00000000_11111100, 00000000_00011111, 00000000_00000000, 11110111_00000000]

  // vex_0F_t
  const VEX0F_T: seq<nat> := [
    00000000_00000000, 11111111_00000000, 00000000_11111111, 00000000_00000000,
    00000000_00000000, 11111111_11111111, 11111111_11111111, 11111111_00001111,
    00000000_00000000, 00000000_00000000, 00000000_00000000, 00000000_00000000,
    00101110_00000000, 11111111_11111111, 11111111_11111111, 11111111_11111110]

  // evex_0F3A_t
  const EVEX0F3A_T: seq<nat> := [
    11011100_11110001, 00001111_10100111, 11110111_01010000, 00000000_11110011,
    00111000_00000000, 11001111_00000000, 00000011_00000000, 11110000_00000000,
    00000000_00000000, 00000000_00000000, 00000000_00000000, 00000000_00000000,
    00000000_00000011, 00000000_00000000, 00000000_00000000, 00000000_00000000]

  // evex_0F38_t
  const EVEX0F38_T: seq<nat> := [
    10001000_00011100, 11111110_11111111, 11111111_11111100, 11111111_11011111,
    10111111_00001111, 11111100_11110000, 00111110_10000000, 11110111_11111111,
    00010000_11110101, 11110011_11111111, 11110011_11111111, 00001111_11111111,
    00001011_10111101, 00000000_00001111, 00000000_00000000, 00000000_00000000]

  // evex_0F_t
  const EVEX0F_T: seq<nat> := [
    00000000_00000000, 11111111_00000000, 00000000_11111111, 00000000_00000000,
    00000000_00000000, 01001111_11111111, 11111111_11111111, 11111110_11110011,
    00000000_00000000, 00000000_00000000, 00000000_00000000, 00000000_00000000,
    00101110_00000000, 11101110_11011111, 11111111_11111111, 01111110_11111110]

  // op_code_ext_t
  const OPCODEEXT_T: seq<nat> := [
    00000000_00000000, 00000000_00000000, 00000000_00000000, 00000000_00000000,
    00000000_00000000, 00000000_00000000, 00000000_00000000, 00000000_00000000,
    11010000_00000000, 00000000_00000000, 00000000_00000000, 00000000_00000000,
    00000000_00000000, 00000000_00000000, 00000000_00000000, 00000011_00000001]

  // The tables of ld.h, in the order of the fields of Tables.
  const LD := Tables(
    TableOf(PREFIX_T), TableOf(MODRM_T), TableOf(DATA1_T), TableOf(DATA2_T), TableOf(DATA66_T),
    TableOf(UD1_T), TableOf(ARITH1_T), TableOf(JCC1_T), TableOf(JMP1_T), TableOf(RET1_T),
    TableOf(CALL1_T), TableOf(CONTROL1_T), TableOf(LOGICAL1_T), TableOf(MEMORY1_T), TableOf(SYSTEM1_T),
    TableOf(MODRM2_T), TableOf(IMM8TWO_T), TableOf(UD2_T), TableOf(ARITH2_T), TableOf(JCC2_T),
    TableOf(CONTROL2_T), TableOf(LOGICAL2_T), TableOf(MEMORY2_T), TableOf(SYSTEM2_T), TableOf(MODRM38_T),
    TableOf(UD38_T), TableOf(ARITH38_T), TableOf(MEMORY38_T), TableOf(CONTROL38_T), TableOf(MODRM3A_T),
    TableOf(UD3A_T), TableOf(ARITH3A_T), TableOf(MEMORY3A_T), TableOf(VEX0F3A_T), TableOf(VEX0F38_T),
    TableOf(VEX0F_T), TableOf(EVEX0F3A_T), TableOf(EVEX0F38_T), TableOf(EVEX0F_T), TableOf(OPCODEEXT_T))
}

module LdTablesFacts {
  import opened Ld
  import opened LdTables
  import opened Decoder

  /** The tables of ld.h are as the decoder's control flow expects them. */
  lemma LdTablesOk()
    ensures TablesOk(LD)
  {
    assert BitAt(PREFIX_T, 0x62) && BitAt(PREFIX_T, 0xC4) && BitAt(PREFIX_T, 0xC5);
    assert !BitAt(PREFIX_T, 0x0F);
    assert BitAt(MODRM_T, 0xF6) && BitAt(MODRM_T, 0xF7);
    forall b: byte | IsRex(b) ensures b !in LD.prefix {
      assert b / 16 == 4 && PREFIX_T[4] == 0;
    }
  }

  /** The mask byte 0x0E is an invalid opcode, so a masked address always traps. */
  lemma MaskByteIsInvalid(w: seq<byte>)
    requires w != [] && w[0] == INVALID_OPCODE
    ensures DecodeOne(LD, w) == Invalid
  {
    assert !BitAt(PREFIX_T, 0x0E) && BitAt(UD1_T, 0x0E);
    LeadIs(LD, w, 0, 0);
  }

  // Behind C5 and any byte, opcode FF goes on to the group decoding of its ModRM byte.
  lemma VexIsAfterOpcode(t: Tables, w: seq<byte>)
    requires VEX2 in t.prefix && |w| >= 4 && w[0] == VEX2 && w[2] == 0xFF
    ensures DecodeOne(t, w) == AfterOpcode(t, w, 2, ModsOf([]), Vex0FShape(0xFF))
  {
    hide AfterOpcode, ModsOf;
    LeadIs(t, w, 0, 0);
    assert w[..0] == [];
  }

  // Five bytes are enough for its SIB byte and displacement.
  lemma VexOperand(t: Tables, w: seq<byte>, mods: Mods)
    requires |w| >= 4 && 0xFF in t.opCodeExt && mods == ModsOf([])
    ensures var d := AfterOpcode(t, w, 2, mods, Vex0FShape(0xFF));
      && (|w| >= 9 ==> d.Complete?) && !d.Invalid?
      && (d.Complete? ==>
            (d.kind == Call <==> RegField(w[3]) == 2 || RegField(w[3]) == 3)
            && (d.kind == Jmp <==> RegField(w[3]) == 4 || RegField(w[3]) == 5))
  {
  }

  /** A two-byte VEX instruction is not checked against the table of VEX opcodes, and its
      opcode takes part in the one-byte group decoding: whatever its second byte, its operands
      and what follows, C5 xx FF is reported as a CALL exactly if the reg field of its ModRM
      byte is 2 or 3, and as a JMP exactly if it is 4 or 5. */
  lemma VexGroupIsTakenForCall(w: seq<byte>)
    requires |w| >= 4 && w[0] == VEX2 && w[2] == 0xFF
    ensures var d := DecodeOne(LD, w);
      && (|w| >= 9 ==> d.Complete?) && !d.Invalid?
      && (d.Complete? ==>
            (d.kind == Call <==> RegField(w[3]) == 2 || RegField(w[3]) == 3)
            && (d.kind == Jmp <==> RegField(w[3]) == 4 || RegField(w[3]) == 5))
  {
    hide DecodeOne, AfterOpcode;
    LdTablesOk();
    assert BitAt(OPCODEEXT_T, 0xFF);
    VexIsAfterOpcode(LD, w);
    VexOperand(LD, w, ModsOf([]));
  }
}
