/**
 disassemble_code and find_ret as they run: over memory, with the cursor, the
 operand sizes and the counters updated in place.

 Memory is an array indexed by address.  A `goto` of the source becomes an early
 return of the method that decodes one instruction; every CHECK_CROSS_PAGE is a
 comparison with the end of the window.
 */
module Disassembler {
  import opened Ld
  import opened Decoder
  import opened Scanner

  // struct stats
  class ZoneStats {
    var stats: Stats

    constructor ()
      ensures stats == ZERO
    {
      stats := ZERO;
    }

    method Bump(k: Kind)
      modifies this
      ensures stats == Add(old(stats), One(k))
    {
      if k.IsBranch() || k == Control {
        stats := stats.(control := (stats.control + 1) % 256);
      } else if k == Arithmetic {
        stats := stats.(arithmetic := (stats.arithmetic + 1) % 256);
      } else if k == Logical {
        stats := stats.(logical := (stats.logical + 1) % 256);
      } else if k == Memory {
        stats := stats.(memory := (stats.memory + 1) % 256);
      } else if k == System {
        stats := stats.(system := (stats.system + 1) % 256);
      } else if k == Other {
        stats := stats.(misc := (stats.misc + 1) % 256);
      } else {
        stats := stats.(vector := (stats.vector + 1) % 256);
      }
    }
  }

  // *(cur + 1), read before the bound is checked: past the end of memory it is anything.
  method UncheckedRead(mem: array<byte>, a: nat) returns (b: byte)
    ensures a < mem.Length ==> b == mem[a]
  {
    if a < mem.Length {
      b := mem[a];
    } else {
      b := *;
    }
  }

  // The prefix loop.  It leaves cur on the first byte that is not stepped over.
  method SkipPrefixes(t: Tables, mem: array<byte>, start: nat, end: nat) returns (cur: nat, mods: Mods)
    requires TablesOk(t) && start < end <= mem.Length
    ensures start <= cur <= end
    ensures cur - start == Lead(t, mem[start..end], 0)
    ensures mods == ModsOf(mem[start..end][..cur - start])
  {
    hide ModsOf, Lead;
    cur := start;
    var ddef, mdef, rexW := 4, 4, false;
    NoMods();
    assert mem[start..start] == [];
    while cur < end
      invariant start <= cur <= end
      invariant forall j | start <= j < cur :: Skippable(t, mem[j])
      invariant Mods(ddef, mdef, rexW) == ModsOf(mem[start..cur])
    {
      var b := mem[cur];
      if b in t.prefix {
        if b == EVEX || b == VEX2 || b == VEX3 {
          break;
        } else if b == 0x66 {
          ddef := 2;
        } else if b == 0x67 {
          mdef := 2;
        }
      } else if IsRex(b) {
        if IsRexW(b) {
          rexW := true;
        }
      } else {
        break;
      }
      ModsOfSnoc(t, mem[start..cur], b);
      assert mem[start..cur + 1] == mem[start..cur] + [b];
      cur := cur + 1;
    }
    mods := Mods(ddef, mdef, rexW);
    LeadIs(t, mem[start..end], 0, cur - start);
    assert mem[start..end][..cur - start] == mem[start..cur];
  }

  lemma NoMods()
    ensures ModsOf([]) == Mods(4, 4, false)
  {
  }

  lemma ModsOfSnoc(t: Tables, s: seq<byte>, b: byte)
    ensures var m := ModsOf(s);
      ModsOf(s + [b]) == Mods(if b == 0x66 then 2 else m.ddef, if b == 0x67 then 2 else m.mdef,
                              m.rexW || (IsRex(b) && IsRexW(b)))
  {
    var s' := s + [b];
    assert forall x :: x in s' <==> x in s || x == b;
  }

  // From the last opcode byte on: ModRM, SIB, displacement and immediate.
  method ReadOperands(t: Tables, mem: array<byte>, start: nat, end: nat, at: nat, mods: Mods, s: Shape)
    returns (d: Decoded)
    requires start <= at < end <= mem.Length
    ensures d == AfterOpcode(t, mem[start..end], at - start, mods, s)
  {
    if s.BadOpcode? {
      return Invalid;
    }
    var cur, msize, dsize, kind := at, s.moffs, s.imm, s.kind;
    if s.modrm {
      cur := cur + 1;
      if cur >= end {
        return Incomplete;
      }
      var modrm := mem[cur];
      kind := ExtKind(t, s, modrm);
      if ModField(modrm) == 0 && RmField(modrm) == 5 {
        msize := msize + Disp32(mods);
      } else if ModField(modrm) == 1 {
        msize := msize + 1;
      } else if ModField(modrm) == 2 {
        msize := msize + Disp32(mods);
      }
      if ModField(modrm) != 3 && RmField(modrm) == 4 {
        cur := cur + 1;
        if cur >= end {
          return Incomplete;
        }
        if RmField(mem[cur]) == 5 && ModField(modrm) == 0 {
          msize := msize + Disp32(mods);
        }
      }
    }
    if mods.rexW && !s.multibyte && s.rexImm {
      if IsImm64(s.op) {
        dsize := 8;
      }
      if IsOff64(s.op) {
        msize := 8;
      }
    }
    cur := cur + msize + dsize + 1;
    if cur - 1 >= end {
      return Incomplete;
    }
    return Complete(cur - start, kind);
  }

  method ReadVector(t: Tables, mem: array<byte>, start: nat, end: nat, lead: nat, mods: Mods) returns (d: Decoded)
    requires start <= lead < end <= mem.Length
    requires IsVector(mem[lead]) && mem[lead] in t.prefix
    ensures d == AfterPrefixes(t, mem[start..end], lead - start, mods)
  {
    hide AfterOpcode, EvexShape, Vex3Shape, Vex0FShape, AfterEscape, AfterOneByte, OneByteShape;
    if mem[lead] == EVEX {
      var mm := UncheckedRead(mem, lead + 1);
      if lead + 4 >= end {
        return Incomplete;
      }
      d := ReadOperands(t, mem, start, end, lead + 4, mods, EvexShape(t, mm, mem[lead + 4]));
    } else if mem[lead] == VEX2 {
      if lead + 2 >= end {
        return Incomplete;
      }
      d := ReadOperands(t, mem, start, end, lead + 2, mods, Vex0FShape(mem[lead + 2]));
    } else {
      var mmmmm := UncheckedRead(mem, lead + 1);
      if lead + 3 >= end {
        return Incomplete;
      }
      d := ReadOperands(t, mem, start, end, lead + 3, mods, Vex3Shape(t, mmmmm, mem[lead + 3]));
    }
  }

  method ReadEscape(t: Tables, mem: array<byte>, start: nat, end: nat, lead: nat, mods: Mods) returns (d: Decoded)
    requires start <= lead < end <= mem.Length
    ensures d == AfterEscape(t, mem[start..end], lead + 1 - start, mods)
  {
    hide AfterOpcode, Map38Shape, Map3AShape, TwoByteShape;
    var cur := lead + 1;
    if cur >= end {
      return Incomplete;
    }
    var op := mem[cur];
    var s;
    if op == 0x38 || op == 0x3A {
      cur := cur + 1;
      if cur >= end {
        return Incomplete;
      }
      s := if op == 0x38 then Map38Shape(t, mem[cur]) else Map3AShape(t, mem[cur]);
    } else {
      s := TwoByteShape(t, op, mods);
    }
    d := ReadOperands(t, mem, start, end, cur, mods, s);
  }

  method ReadOneByte(t: Tables, mem: array<byte>, start: nat, end: nat, lead: nat, mods: Mods) returns (d: Decoded)
    requires start <= lead < end <= mem.Length
    ensures d == AfterOneByte(t, mem[start..end], lead - start, mods, OneByteShape(t, mem[lead], mods))
  {
    hide AfterOpcode, OneByteShape, TestImm;
    var s := OneByteShape(t, mem[lead], mods);
    if s.Shape? && IsTest(s.op) {
      if lead + 1 >= end {
        return Incomplete;
      }
      s := s.(imm := s.imm + TestImm(s.op, mem[lead + 1], mods));
    }
    d := ReadOperands(t, mem, start, end, lead, mods, s);
  }

  // One turn of the decoder loop, from the first byte of an instruction.
  method DecodeAt(t: Tables, mem: array<byte>, start: nat, end: nat) returns (d: Decoded)
    requires TablesOk(t) && start < end <= mem.Length
    ensures d == DecodeOne(t, mem[start..end])
    ensures d.Complete? ==> start < start + d.len <= end
  {
    hide AfterOpcode, AfterEscape, AfterOneByte, OneByteShape, EvexShape, Vex3Shape, Vex0FShape;
    var cur, mods := SkipPrefixes(t, mem, start, end);
    if cur >= end {
      return Incomplete;
    }
    if IsVector(mem[cur]) && mem[cur] in t.prefix {
      d := ReadVector(t, mem, start, end, cur, mods);
    } else if mem[cur] == ESCAPE {
      d := ReadEscape(t, mem, start, end, cur, mods);
    } else {
      d := ReadOneByte(t, mem, start, end, cur, mods);
    }
  }

  const DISASSEMBLE_ERROR := -1
  const DISASSEMBLE_CONTINUE := 0

  // DISASSEMBLE_SUCCESS with the flag of the branch found.
  function SuccessCode(k: Kind): int {
    match k
    case Jcc => 0x11
    case Jmp => 0x5
    case Call => 0x3
    case _ => 0x9
  }

  /** The codes of success have bit 0 and the one flag of the branch found: 2 for a call, 4
      for a jump, 8 for a return, 16 for a conditional jump. */
  lemma SuccessCodeFlags(k: Kind)
    requires k.IsBranch()
    ensures var c := SuccessCode(k);
      && c % 2 == 1 && c < 32
      && (c / 2 % 2 == 1 <==> k == Call) && (c / 4 % 2 == 1 <==> k == Jmp)
      && (c / 8 % 2 == 1 <==> k == Ret) && (c / 16 % 2 == 1 <==> k == Jcc)
    ensures SuccessCode(k) != DISASSEMBLE_ERROR && SuccessCode(k) != DISASSEMBLE_CONTINUE
    ensures DISASSEMBLE_ERROR != DISASSEMBLE_CONTINUE
  {
  }

  // The returned code, *end and the counters, as a scan result determines them.
  function CodeOf(r: Result): int {
    match r
    case Failed(_) => DISASSEMBLE_ERROR
    case Continue(_, _) => DISASSEMBLE_CONTINUE
    case Found(_, k, _) => SuccessCode(k)
  }

  function EndOf(r: Result, start: nat, end: nat): nat {
    match r
    case Failed(_) => end
    case Continue(e, _) => start + e
    case Found(e, _, _) => start + e
  }

  // One more instruction, seen from the start of the scan.
  lemma ScanStep(t: Tables, w: seq<byte>, n: nat, run: Stats, whole: Result)
    requires whole == After(n, run, Scan(t, w))
    ensures DecodeOne(t, w).Incomplete? ==> whole == Continue(n, run)
    ensures DecodeOne(t, w).Invalid? ==> whole == Failed(run)
    ensures DecodeOne(t, w).Complete? ==>
      var d := DecodeOne(t, w);
      if d.kind.IsBranch() then whole == Found(n + d.len, d.kind, Add(run, One(d.kind)))
      else whole == After(n + d.len, Add(run, One(d.kind)), Scan(t, w[d.len..]))
  {
    AddUnit(run);
    var d := DecodeOne(t, w);
    if d.Complete? && !d.kind.IsBranch() {
      AfterAfter(n, run, d.len, One(d.kind), Scan(t, w[d.len..]));
    }
  }

  /** disassemble_code.  `end` comes back as *end. */
  method DisassembleCode(t: Tables, mem: array<byte>, start: nat, limit: nat, st: ZoneStats)
    returns (code: int, end: nat)
    requires TablesOk(t) && limit <= mem.Length
    modifies st
    ensures start == 0 || limit == 0 || limit <= start ==>
      code == DISASSEMBLE_ERROR && end == limit && st.stats == old(st.stats)
    ensures 0 < start < limit ==>
      var r := Scan(t, mem[start..limit]);
      code == CodeOf(r) && end == EndOf(r, start, limit) && st.stats == Add(old(st.stats), r.stats)
  {
    hide DecodeOne, Add, One, Scan;
    end := limit;
    if start == 0 || limit == 0 || limit <= start {
      return DISASSEMBLE_ERROR, end;
    }
    var cur, aux := start, start;
    ghost var whole := Scan(t, mem[start..limit]);
    ghost var run := ZERO;
    AddUnit(st.stats);
    AddUnit(whole.stats);
    while cur < limit
      invariant start <= cur == aux <= limit
      invariant whole == After(cur - start, run, Scan(t, mem[cur..limit]))
      invariant st.stats == Add(old(st.stats), run)
    {
      ghost var w := mem[cur..limit];
      ScanStep(t, w, cur - start, run, whole);
      var d := DecodeAt(t, mem, cur, limit);
      if d.Incomplete? {
        return DISASSEMBLE_CONTINUE, aux;
      } else if d.Invalid? {
        return DISASSEMBLE_ERROR, end;
      }
      AddAssociative(old(st.stats), run, One(d.kind));
      st.Bump(d.kind);
      run := Add(run, One(d.kind));
      cur := cur + d.len;
      aux := cur;
      if d.kind.IsBranch() {
        return SuccessCode(d.kind), cur;
      }
      assert mem[cur..limit] == w[d.len..];
    }
    NothingToDecode(t);
    ScanStep(t, mem[cur..limit], cur - start, run, whole);
    return DISASSEMBLE_CONTINUE, aux;
  }
}
