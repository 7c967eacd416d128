/**
 The specification of the length disassembler on a window of bytes, and the
 instruction grammar it decodes (prefixes, vector prefix, escape, opcode, ModRM,
 SIB, operands: section 2.1 of Intel SDM Volume 2A).

 `DecodeOne` reads a window from the front the way one turn of the loop of
 disassemble_code does.  `Instr` and `Encode` describe the same language from the
 writing side; `EncodeThenDecode` and `DecodeThenEncode` make the two inverse.
 */
module Decoder {
  import opened Ld

  datatype Decoded = Complete(len: nat, kind: Kind) | Invalid | Incomplete

  // The number of bytes of w, from index i on, that the prefix loop steps over.
  function Lead(t: Tables, w: seq<byte>, i: nat): (k: nat)
    requires i <= |w|
    ensures i <= k <= |w|
    ensures forall j | i <= j < k :: Skippable(t, w[j])
    ensures k < |w| ==> !Skippable(t, w[k])
    decreases |w| - i
  {
    if i == |w| || !Skippable(t, w[i]) then i else Lead(t, w, i + 1)
  }

  function DecodeOne(t: Tables, w: seq<byte>): (d: Decoded)
    ensures d.Complete? ==> 1 <= d.len <= |w|
  {
    var k := Lead(t, w, 0);
    if k == |w| then Incomplete
    else AfterPrefixes(t, w, k, ModsOf(w[..k]))
  }

  function AfterPrefixes(t: Tables, w: seq<byte>, k: nat, mods: Mods): (d: Decoded)
    requires k < |w|
    ensures d.Complete? ==> k < d.len <= |w|
  {
    if w[k] in t.prefix && w[k] == EVEX then
      (if k + 4 < |w| then AfterOpcode(t, w, k + 4, mods, EvexShape(t, w[k + 1], w[k + 4])) else Incomplete)
    else if w[k] in t.prefix && w[k] == VEX2 then
      (if k + 2 < |w| then AfterOpcode(t, w, k + 2, mods, Vex0FShape(w[k + 2])) else Incomplete)
    else if w[k] in t.prefix && w[k] == VEX3 then
      (if k + 3 < |w| then AfterOpcode(t, w, k + 3, mods, Vex3Shape(t, w[k + 1], w[k + 3])) else Incomplete)
    else if w[k] == ESCAPE then AfterEscape(t, w, k + 1, mods)
    else AfterOneByte(t, w, k, mods, OneByteShape(t, w[k], mods))
  }

  function AfterEscape(t: Tables, w: seq<byte>, at: nat, mods: Mods): (d: Decoded)
    ensures d.Complete? ==> at < d.len <= |w|
  {
    if at >= |w| then Incomplete
    else if w[at] == 0x38 then
      (if at + 1 < |w| then AfterOpcode(t, w, at + 1, mods, Map38Shape(t, w[at + 1])) else Incomplete)
    else if w[at] == 0x3A then
      (if at + 1 < |w| then AfterOpcode(t, w, at + 1, mods, Map3AShape(t, w[at + 1])) else Incomplete)
    else AfterOpcode(t, w, at, mods, TwoByteShape(t, w[at], mods))
  }

  // TEST is looked at one byte ahead, before the ModRM byte is read in its turn.
  function AfterOneByte(t: Tables, w: seq<byte>, at: nat, mods: Mods, s: Shape): (d: Decoded)
    requires at < |w|
    ensures d.Complete? ==> at < d.len <= |w|
  {
    if s.Shape? && IsTest(s.op) then
      (if at + 1 < |w| then AfterOpcode(t, w, at, mods, s.(imm := s.imm + TestImm(s.op, w[at + 1], mods)))
       else Incomplete)
    else AfterOpcode(t, w, at, mods, s)
  }

  // `at` is the index of the last opcode byte.
  function AfterOpcode(t: Tables, w: seq<byte>, at: nat, mods: Mods, s: Shape): (d: Decoded)
    requires at < |w|
    ensures d.Complete? ==> s.Shape? && at + Count(s.modrm) < d.len <= |w|
    ensures d.Complete? && s.modrm && HasSib(w[at + 1]) ==> at + 2 < d.len
  {
    if s.BadOpcode? then Invalid
    else if !s.modrm then Finish(w, at, mods, s, s.moffs, s.kind)
    else if at + 1 >= |w| then Incomplete
    else
      var m := w[at + 1];
      if !HasSib(m) then Finish(w, at + 1, mods, s, s.moffs + Disp(m, mods), ExtKind(t, s, m))
      else if at + 2 >= |w| then Incomplete
      else Finish(w, at + 2, mods, s, s.moffs + Disp(m, mods) + SibDisp(m, w[at + 2], mods), ExtKind(t, s, m))
  }

  function Finish(w: seq<byte>, cur: nat, mods: Mods, s: Shape, msize: nat, kind: Kind): Decoded
    requires s.Shape?
  {
    var n := cur + MemSize(s, mods, msize) + ImmSize(s, mods, s.imm) + 1;
    if n <= |w| then Complete(n, kind) else Incomplete
  }

  // ---------------------------------------------------------------- windows

  lemma {:induction false} LeadOfLonger(t: Tables, w: seq<byte>, w': seq<byte>, i: nat)
    requires i <= |w| && w <= w'
    ensures Lead(t, w, i) < |w| ==> Lead(t, w', i) == Lead(t, w, i)
    decreases |w| - i
  {
    if i < |w| && Skippable(t, w[i]) {
      LeadOfLonger(t, w, w', i + 1);
    }
  }

  lemma AfterOpcodeOfLonger(t: Tables, w: seq<byte>, w': seq<byte>, at: nat, mods: Mods, s: Shape)
    requires w <= w' && at < |w| && !AfterOpcode(t, w, at, mods, s).Incomplete?
    ensures AfterOpcode(t, w', at, mods, s) == AfterOpcode(t, w, at, mods, s)
  {
  }

  lemma AfterEscapeOfLonger(t: Tables, w: seq<byte>, w': seq<byte>, at: nat, mods: Mods)
    requires w <= w' && !AfterEscape(t, w, at, mods).Incomplete?
    ensures AfterEscape(t, w', at, mods) == AfterEscape(t, w, at, mods)
  {
    if w[at] == 0x38 {
      AfterOpcodeOfLonger(t, w, w', at + 1, mods, Map38Shape(t, w[at + 1]));
    } else if w[at] == 0x3A {
      AfterOpcodeOfLonger(t, w, w', at + 1, mods, Map3AShape(t, w[at + 1]));
    } else {
      AfterOpcodeOfLonger(t, w, w', at, mods, TwoByteShape(t, w[at], mods));
    }
  }

  lemma AfterOneByteOfLonger(t: Tables, w: seq<byte>, w': seq<byte>, at: nat, mods: Mods, s: Shape)
    requires w <= w' && at < |w| && !AfterOneByte(t, w, at, mods, s).Incomplete?
    ensures AfterOneByte(t, w', at, mods, s) == AfterOneByte(t, w, at, mods, s)
  {
    if s.Shape? && IsTest(s.op) {
      AfterOpcodeOfLonger(t, w, w', at, mods, s.(imm := s.imm + TestImm(s.op, w[at + 1], mods)));
    } else {
      AfterOpcodeOfLonger(t, w, w', at, mods, s);
    }
  }

  lemma AfterPrefixesOfLonger(t: Tables, w: seq<byte>, w': seq<byte>, k: nat, mods: Mods)
    requires w <= w' && k < |w| && !AfterPrefixes(t, w, k, mods).Incomplete?
    ensures AfterPrefixes(t, w', k, mods) == AfterPrefixes(t, w, k, mods)
  {
    if w[k] in t.prefix && w[k] == EVEX {
      AfterOpcodeOfLonger(t, w, w', k + 4, mods, EvexShape(t, w[k + 1], w[k + 4]));
    } else if w[k] in t.prefix && w[k] == VEX2 {
      AfterOpcodeOfLonger(t, w, w', k + 2, mods, Vex0FShape(w[k + 2]));
    } else if w[k] in t.prefix && w[k] == VEX3 {
      AfterOpcodeOfLonger(t, w, w', k + 3, mods, Vex3Shape(t, w[k + 1], w[k + 3]));
    } else if w[k] == ESCAPE {
      AfterEscapeOfLonger(t, w, w', k + 1, mods);
    } else {
      AfterOneByteOfLonger(t, w, w', k, mods, OneByteShape(t, w[k], mods));
    }
  }

  // A verdict reached inside a window is the verdict on every longer window.
  lemma DecodeOfLonger(t: Tables, w: seq<byte>, w': seq<byte>)
    requires w <= w'
    requires !DecodeOne(t, w).Incomplete?
    ensures DecodeOne(t, w') == DecodeOne(t, w)
  {
    LeadOfLonger(t, w, w', 0);
    var k := Lead(t, w, 0);
    assert w'[..k] == w[..k];
    AfterPrefixesOfLonger(t, w, w', k, ModsOf(w[..k]));
  }

  // ---------------------------------------------------------------- grammar

  /** One instruction of the language, field by field. */
  datatype Instr = Instr(
    prefixes: seq<byte>, head: seq<byte>, escape: seq<byte>, opcode: byte,
    modrm: seq<byte>, sib: seq<byte>, operands: seq<byte>)

  function Encode(x: Instr): seq<byte> {
    x.prefixes + x.head + x.escape + [x.opcode] + x.modrm + x.sib + x.operands
  }

  predicate HeadForm(t: Tables, head: seq<byte>) {
    || head == []
    || (|head| == 2 && head[0] == VEX2)
    || (|head| == 3 && head[0] == VEX3)
    || (|head| == 4 && head[0] == EVEX)
  }

  // Which opcode map an instruction is in, and that its escape bytes say so.
  predicate EscapeForm(t: Tables, x: Instr) {
    if x.head != [] then x.escape == []
    else if x.escape == [] then
      x.opcode != ESCAPE && !Skippable(t, x.opcode) && !IsVector(x.opcode)
    else if x.escape == [ESCAPE] then x.opcode != 0x38 && x.opcode != 0x3A
    else x.escape == [ESCAPE, 0x38] || x.escape == [ESCAPE, 0x3A]
  }

  function ShapeOf(t: Tables, x: Instr): Shape
    requires HeadForm(t, x.head) && EscapeForm(t, x)
  {
    var mods := ModsOf(x.prefixes);
    if |x.head| == 2 then Vex0FShape(x.opcode)
    else if |x.head| == 3 then Vex3Shape(t, x.head[1], x.opcode)
    else if |x.head| == 4 then EvexShape(t, x.head[1], x.opcode)
    else if x.escape == [] then OneByteShape(t, x.opcode, mods)
    else if x.escape == [ESCAPE] then TwoByteShape(t, x.opcode, mods)
    else if x.escape == [ESCAPE, 0x38] then Map38Shape(t, x.opcode)
    else Map3AShape(t, x.opcode)
  }

  function OperandBytes(x: Instr, s: Shape): nat
    requires s.Shape?
  {
    var mods := ModsOf(x.prefixes);
    var disp := if x.modrm == [] then 0 else Disp(x.modrm[0], mods);
    var sibDisp := if x.modrm == [] || x.sib == [] then 0 else SibDisp(x.modrm[0], x.sib[0], mods);
    var test := if x.head == [] && x.escape == [] && x.modrm != [] then TestImm(x.opcode, x.modrm[0], mods) else 0;
    MemSize(s, mods, s.moffs + disp + sibDisp) + ImmSize(s, mods, s.imm + test)
  }

  predicate WellFormed(t: Tables, x: Instr) {
    && (forall b | b in x.prefixes :: Skippable(t, b))
    && HeadForm(t, x.head)
    && EscapeForm(t, x)
    && ShapeOf(t, x).Shape?
    && |x.modrm| == Count(ShapeOf(t, x).modrm)
    && |x.sib| == Count(x.modrm != [] && HasSib(x.modrm[0]))
    && |x.operands| == OperandBytes(x, ShapeOf(t, x))
  }

  function KindOf(t: Tables, x: Instr): Kind
    requires WellFormed(t, x)
  {
    if x.modrm == [] then ShapeOf(t, x).kind else ExtKind(t, ShapeOf(t, x), x.modrm[0])
  }

  lemma {:induction false} LeadIs(t: Tables, w: seq<byte>, i: nat, k: nat)
    requires i <= k <= |w|
    requires forall j | i <= j < k :: Skippable(t, w[j])
    requires k < |w| ==> !Skippable(t, w[k])
    ensures Lead(t, w, i) == k
    decreases k - i
  {
    if i < k {
      LeadIs(t, w, i + 1, k);
    }
  }

  // The bytes of an encoded instruction, field by field, at the front of w.
  lemma FieldsAt(x: Instr, w: seq<byte>)
    requires Encode(x) <= w
    ensures var p, h, e := |x.prefixes|, |x.prefixes| + |x.head|, |x.prefixes| + |x.head| + |x.escape|;
      && e < |w| && w[..p] == x.prefixes
      && (forall j | 0 <= j < |x.prefixes| :: w[j] == x.prefixes[j])
      && (forall j {:trigger x.head[j]} | 0 <= j < |x.head| :: w[p + j] == x.head[j])
      && (forall j {:trigger x.escape[j]} | 0 <= j < |x.escape| :: w[h + j] == x.escape[j])
      && w[e] == x.opcode
      && (x.modrm != [] ==> e + 1 < |w| && w[e + 1] == x.modrm[0])
      && (|x.modrm| == 1 && x.sib != [] ==> e + 2 < |w| && w[e + 2] == x.sib[0])
  {
    var c := Encode(x);
    assert w[..|c|] == c;
    assert c[..|x.prefixes|] == x.prefixes;
    var a := x.prefixes + x.head;
    var b := a + x.escape;
    assert c == a + (x.escape + [x.opcode] + x.modrm + x.sib + x.operands);
    assert c == b + ([x.opcode] + x.modrm + x.sib + x.operands);
  }

  /** The decoder finds every well-formed instruction, whatever follows it. */
  lemma EncodeThenDecode(t: Tables, x: Instr, w: seq<byte>)
    requires TablesOk(t) && WellFormed(t, x) && Encode(x) <= w
    ensures DecodeOne(t, w) == Complete(|Encode(x)|, KindOf(t, x))
  {
    FieldsAt(x, w);
    var k := |x.prefixes|;
    forall j | 0 <= j < k ensures Skippable(t, w[j]) {
      assert x.prefixes[j] in x.prefixes;
    }
    if x.head != [] {
      EncodedVector(t, x, w);
    } else if x.escape != [] {
      EncodedEscape(t, x, w);
    } else {
      EncodedOneByte(t, x, w);
    }
    LeadIs(t, w, 0, k);
  }

  lemma EncodedVector(t: Tables, x: Instr, w: seq<byte>)
    requires TablesOk(t) && WellFormed(t, x) && Encode(x) <= w && x.head != []
    ensures var k := |x.prefixes|;
      && k < |w| && !Skippable(t, w[k])
      && AfterPrefixes(t, w, k, ModsOf(x.prefixes)) == Complete(|Encode(x)|, KindOf(t, x))
  {
    FieldsAt(x, w);
    var k := |x.prefixes|;
    assert w[k] == x.head[0] && w[k + 1] == x.head[1];
    EncodedTail(t, x, w, ShapeOf(t, x));
  }

  lemma EncodedEscape(t: Tables, x: Instr, w: seq<byte>)
    requires TablesOk(t) && WellFormed(t, x) && Encode(x) <= w && x.head == [] && x.escape != []
    ensures var k := |x.prefixes|;
      && k < |w| && !Skippable(t, w[k])
      && AfterPrefixes(t, w, k, ModsOf(x.prefixes)) == Complete(|Encode(x)|, KindOf(t, x))
  {
    FieldsAt(x, w);
    var k := |x.prefixes|;
    assert w[k] == x.escape[0];
    if |x.escape| == 2 {
      assert w[k + 1] == x.escape[1];
    }
    EncodedTail(t, x, w, ShapeOf(t, x));
  }

  lemma EncodedOneByte(t: Tables, x: Instr, w: seq<byte>)
    requires TablesOk(t) && WellFormed(t, x) && Encode(x) <= w && x.head == [] && x.escape == []
    ensures var k := |x.prefixes|;
      && k < |w| && !Skippable(t, w[k])
      && AfterPrefixes(t, w, k, ModsOf(x.prefixes)) == Complete(|Encode(x)|, KindOf(t, x))
  {
    FieldsAt(x, w);
    var k, s := |x.prefixes|, ShapeOf(t, x);
    if IsTest(x.opcode) {
      EncodedTail(t, x, w, s.(imm := s.imm + TestImm(x.opcode, w[k + 1], ModsOf(x.prefixes))));
    } else {
      EncodedTail(t, x, w, s);
    }
  }

  lemma EncodedTail(t: Tables, x: Instr, w: seq<byte>, s: Shape)
    requires WellFormed(t, x) && Encode(x) <= w && ShapeOf(t, x).Shape?
    requires s.Shape? && s == ShapeOf(t, x).(imm := s.imm)
    requires s.imm == ShapeOf(t, x).imm +
      if x.head == [] && x.escape == [] && x.modrm != [] then TestImm(x.opcode, x.modrm[0], ModsOf(x.prefixes)) else 0
    ensures |x.prefixes| + |x.head| + |x.escape| < |w|
    ensures AfterOpcode(t, w, |x.prefixes| + |x.head| + |x.escape|, ModsOf(x.prefixes), s)
         == Complete(|Encode(x)|, KindOf(t, x))
  {
    FieldsAt(x, w);
    assert |Encode(x)| == |x.prefixes| + |x.head| + |x.escape| + 1 + |x.modrm| + |x.sib| + |x.operands|;
  }

  // Cuts an instruction of n bytes out of w, given where its opcode byte is.
  function Cut(w: seq<byte>, k: nat, h: nat, at: nat, s: Shape, n: nat): (x: Instr)
    requires k <= h <= at < |w| && at < n <= |w|
    requires s.Shape? && at + Count(s.modrm) < n
    requires s.modrm && HasSib(w[at + 1]) ==> at + 2 < n
    ensures Encode(x) == w[..n]
    ensures x.prefixes == w[..k] && x.head == w[k..h] && x.escape == w[h..at] && x.opcode == w[at]
    ensures x.modrm == if s.modrm then [w[at + 1]] else []
    ensures x.sib == if s.modrm && HasSib(w[at + 1]) then [w[at + 2]] else []
    ensures |x.operands| == n - at - 1 - |x.modrm| - |x.sib|
  {
    var m := at + 1 + Count(s.modrm);
    var b := m + if s.modrm then Count(HasSib(w[at + 1])) else 0;
    var x := Instr(w[..k], w[k..h], w[h..at], w[at], w[at + 1..m], w[m..b], w[b..n]);
    assert Encode(x) == w[..n];
    x
  }

  // What AfterOpcode added up, written as one sum.
  lemma AfterOpcodeLength(t: Tables, w: seq<byte>, at: nat, mods: Mods, s: Shape)
    requires at < |w| && AfterOpcode(t, w, at, mods, s).Complete?
    ensures var d := AfterOpcode(t, w, at, mods, s);
      var sib := s.modrm && HasSib(w[at + 1]);
      var disp := if s.modrm then Disp(w[at + 1], mods) else 0;
      var sibDisp := if sib then SibDisp(w[at + 1], w[at + 2], mods) else 0;
      && d.len == at + 1 + Count(s.modrm) + Count(sib)
           + MemSize(s, mods, s.moffs + disp + sibDisp) + ImmSize(s, mods, s.imm)
      && d.kind == if s.modrm then ExtKind(t, s, w[at + 1]) else s.kind
  {
  }

  lemma CutIsWellFormed(t: Tables, w: seq<byte>, k: nat, h: nat, at: nat, s: Shape, s0: Shape) returns (x: Instr)
    requires k <= h <= at < |w|
    requires forall j | 0 <= j < k :: Skippable(t, w[j])
    requires s0.Shape? && s.Shape? && s == s0.(imm := s.imm)
    requires var y := Instr(w[..k], w[k..h], w[h..at], w[at], [], [], []);
      HeadForm(t, y.head) && EscapeForm(t, y) && ShapeOf(t, y) == s0
    requires s.imm == s0.imm +
      if h == k && at == h && s0.modrm && at + 1 < |w| then TestImm(w[at], w[at + 1], ModsOf(w[..k])) else 0
    requires AfterOpcode(t, w, at, ModsOf(w[..k]), s).Complete?
    ensures var d := AfterOpcode(t, w, at, ModsOf(w[..k]), s);
      WellFormed(t, x) && Encode(x) == w[..d.len] && KindOf(t, x) == d.kind
  {
    var mods := ModsOf(w[..k]);
    var d := AfterOpcode(t, w, at, mods, s);
    AfterOpcodeLength(t, w, at, mods, s);
    x := Cut(w, k, h, at, s, d.len);
    var y := Instr(w[..k], w[k..h], w[h..at], w[at], [], [], []);
    ShapeIgnoresTail(t, x, y);
    forall b | b in x.prefixes ensures Skippable(t, b) {
      var j :| 0 <= j < k && x.prefixes[j] == b;
      assert w[j] == b;
    }
    OperandsAddUp(x, s, s0);
  }

  lemma ShapeIgnoresTail(t: Tables, x: Instr, y: Instr)
    requires y == x.(modrm := [], sib := [], operands := [])
    requires HeadForm(t, y.head) && EscapeForm(t, y)
    ensures EscapeForm(t, x) && ShapeOf(t, x) == ShapeOf(t, y)
  {
  }

  lemma OperandsAddUp(x: Instr, s: Shape, s0: Shape)
    requires s.Shape? && s0.Shape? && s == s0.(imm := s.imm)
    requires s.imm == s0.imm +
      if x.head == [] && x.escape == [] && x.modrm != [] then TestImm(x.opcode, x.modrm[0], ModsOf(x.prefixes)) else 0
    ensures var mods := ModsOf(x.prefixes);
      var disp := if x.modrm == [] then 0 else Disp(x.modrm[0], mods);
      var sibDisp := if x.modrm == [] || x.sib == [] then 0 else SibDisp(x.modrm[0], x.sib[0], mods);
      OperandBytes(x, s0) == MemSize(s, mods, s.moffs + disp + sibDisp) + ImmSize(s, mods, s.imm)
  {
  }

  /** Every instruction the decoder accepts is a well-formed one, spelled by
      exactly the bytes it consumed. */
  lemma DecodeThenEncode(t: Tables, w: seq<byte>) returns (x: Instr)
    requires TablesOk(t) && DecodeOne(t, w).Complete?
    ensures WellFormed(t, x)
    ensures Encode(x) == w[..DecodeOne(t, w).len]
    ensures KindOf(t, x) == DecodeOne(t, w).kind
  {
    var k := Lead(t, w, 0);
    if IsVector(w[k]) {
      x := CutVector(t, w, k);
    } else if w[k] != ESCAPE {
      x := CutOneByte(t, w, k);
    } else {
      x := CutEscape(t, w, k);
    }
  }

  lemma CutVector(t: Tables, w: seq<byte>, k: nat) returns (x: Instr)
    requires TablesOk(t) && k < |w| && IsVector(w[k])
    requires forall j | 0 <= j < k :: Skippable(t, w[j])
    requires AfterPrefixes(t, w, k, ModsOf(w[..k])).Complete?
    ensures var d := AfterPrefixes(t, w, k, ModsOf(w[..k]));
      WellFormed(t, x) && Encode(x) == w[..d.len] && KindOf(t, x) == d.kind
  {
    var h := k + if w[k] == VEX2 then 2 else if w[k] == VEX3 then 3 else 4;
    var s := if w[k] == VEX2 then Vex0FShape(w[h]) else if w[k] == VEX3 then Vex3Shape(t, w[k + 1], w[h])
    else EvexShape(t, w[k + 1], w[h]);
    assert w[k..h][0] == w[k] && w[k..h][1] == w[k + 1];
    x := CutIsWellFormed(t, w, k, h, h, s, s);
  }

  lemma CutOneByte(t: Tables, w: seq<byte>, k: nat) returns (x: Instr)
    requires TablesOk(t) && k < |w| && !IsVector(w[k]) && w[k] != ESCAPE && !Skippable(t, w[k])
    requires forall j | 0 <= j < k :: Skippable(t, w[j])
    requires AfterPrefixes(t, w, k, ModsOf(w[..k])).Complete?
    ensures var d := AfterPrefixes(t, w, k, ModsOf(w[..k]));
      WellFormed(t, x) && Encode(x) == w[..d.len] && KindOf(t, x) == d.kind
  {
    var mods := ModsOf(w[..k]);
    var s := OneByteShape(t, w[k], mods);
    if IsTest(w[k]) {
      x := CutIsWellFormed(t, w, k, k, k, s.(imm := s.imm + TestImm(s.op, w[k + 1], mods)), s);
    } else {
      x := CutIsWellFormed(t, w, k, k, k, s, s);
    }
  }

  lemma CutEscape(t: Tables, w: seq<byte>, k: nat) returns (x: Instr)
    requires TablesOk(t) && k < |w| && w[k] == ESCAPE
    requires forall j | 0 <= j < k :: Skippable(t, w[j])
    requires AfterPrefixes(t, w, k, ModsOf(w[..k])).Complete?
    ensures var d := AfterPrefixes(t, w, k, ModsOf(w[..k]));
      WellFormed(t, x) && Encode(x) == w[..d.len] && KindOf(t, x) == d.kind
  {
    if w[k + 1] == 0x38 || w[k + 1] == 0x3A {
      var s := if w[k + 1] == 0x38 then Map38Shape(t, w[k + 2]) else Map3AShape(t, w[k + 2]);
      assert w[k..k + 2] == [ESCAPE, w[k + 1]];
      x := CutIsWellFormed(t, w, k, k, k + 2, s, s);
    } else {
      var s := TwoByteShape(t, w[k + 1], ModsOf(w[..k]));
      assert w[k..k + 1] == [ESCAPE];
      x := CutIsWellFormed(t, w, k, k, k + 1, s, s);
    }
  }

  /** Instruction boundaries are unique: no instruction is a proper prefix of
      another one's bytes. */
  lemma PrefixFree(t: Tables, x: Instr, y: Instr)
    requires TablesOk(t) && WellFormed(t, x) && WellFormed(t, y)
    requires Encode(x) <= Encode(y)
    ensures Encode(x) == Encode(y)
  {
    EncodeThenDecode(t, x, Encode(y));
    EncodeThenDecode(t, y, Encode(y));
  }
}
