/**
 find_ret, the second copy of the decoder (libs/utils.c), and its agreement with
 disassemble_code.

 The copy makes no bounds checks and its chain of two-byte types has no entry for
 conditional jumps, so it is the same decoder run with an empty table of two-byte
 conditional jumps.
 */
module FindRet {
  import opened Ld
  import opened Decoder
  import opened Scanner
  import opened Disassembler

  function RetTables(t: Tables): Tables { t.(jcc2 := {}) }

  datatype Outcome = RetAt(pos: nat) | NoRet | OutOfMemory

  function Shift(n: nat, r: Outcome): Outcome {
    if r.RetAt? then RetAt(n + r.pos) else r
  }

  // The search over the bytes w of memory, with n instructions of the budget left.
  function Search(t: Tables, w: seq<byte>, n: nat): Outcome {
    if n == 0 then NoRet
    else
      match DecodeOne(RetTables(t), w)
      case Incomplete => OutOfMemory
      case Invalid => NoRet
      case Complete(len, k) => if k == Ret then RetAt(0) else Shift(len, Search(t, w[len..], n - 1))
  }

  // ---------------------------------------------------------------- the two decoders

  // The same verdict, up to the types the second copy does not distinguish.
  predicate Alike(d: Decoded, d': Decoded) {
    match d
    case Complete(n, k) => d'.Complete? && d'.len == n && (k == Ret <==> d'.kind == Ret)
    case _ => d' == d
  }

  predicate AlikeShapes(s: Shape, s': Shape) {
    s == s' || (s.Shape? && s'.Shape? && s'.multibyte && s == s'.(kind := Jcc) && s'.kind == Other)
  }

  lemma AfterOpcodeAlike(t: Tables, w: seq<byte>, at: nat, mods: Mods, s: Shape, s': Shape)
    requires at < |w| && AlikeShapes(s, s')
    ensures Alike(AfterOpcode(t, w, at, mods, s), AfterOpcode(RetTables(t), w, at, mods, s'))
  {
  }

  lemma AfterOneByteAlike(t: Tables, w: seq<byte>, at: nat, mods: Mods, s: Shape)
    requires at < |w|
    ensures Alike(AfterOneByte(t, w, at, mods, s), AfterOneByte(RetTables(t), w, at, mods, s))
  {
    hide AfterOpcode, TestImm;
    if s.Shape? && IsTest(s.op) && at + 1 < |w| {
      var s' := s.(imm := s.imm + TestImm(s.op, w[at + 1], mods));
      AfterOpcodeAlike(t, w, at, mods, s', s');
    } else {
      AfterOpcodeAlike(t, w, at, mods, s, s);
    }
  }

  lemma AfterEscapeAlike(t: Tables, w: seq<byte>, at: nat, mods: Mods)
    ensures Alike(AfterEscape(t, w, at, mods), AfterEscape(RetTables(t), w, at, mods))
  {
    hide AfterOpcode;
    if at < |w| && (w[at] == 0x38 || w[at] == 0x3A) {
      if at + 1 < |w| {
        var s := if w[at] == 0x38 then Map38Shape(t, w[at + 1]) else Map3AShape(t, w[at + 1]);
        AfterOpcodeAlike(t, w, at + 1, mods, s, s);
      }
    } else if at < |w| {
      AfterOpcodeAlike(t, w, at, mods, TwoByteShape(t, w[at], mods), TwoByteShape(RetTables(t), w[at], mods));
    }
  }

  lemma ShapesAlike(t: Tables, b: byte, op: byte, mods: Mods)
    ensures EvexShape(RetTables(t), b, op) == EvexShape(t, b, op)
    ensures Vex3Shape(RetTables(t), b, op) == Vex3Shape(t, b, op)
    ensures OneByteShape(RetTables(t), op, mods) == OneByteShape(t, op, mods)
  {
  }

  lemma AfterPrefixesAlike(t: Tables, w: seq<byte>, k: nat, mods: Mods)
    requires k < |w|
    ensures Alike(AfterPrefixes(t, w, k, mods), AfterPrefixes(RetTables(t), w, k, mods))
  {
    hide AfterOpcode, AfterEscape, AfterOneByte, EvexShape, Vex3Shape, Vex0FShape, OneByteShape;
    if w[k] in t.prefix && w[k] == EVEX {
      if k + 4 < |w| {
        ShapesAlike(t, w[k + 1], w[k + 4], mods);
        AfterOpcodeAlike(t, w, k + 4, mods, EvexShape(t, w[k + 1], w[k + 4]), EvexShape(t, w[k + 1], w[k + 4]));
      }
    } else if w[k] in t.prefix && w[k] == VEX2 {
      if k + 2 < |w| {
        AfterOpcodeAlike(t, w, k + 2, mods, Vex0FShape(w[k + 2]), Vex0FShape(w[k + 2]));
      }
    } else if w[k] in t.prefix && w[k] == VEX3 {
      if k + 3 < |w| {
        ShapesAlike(t, w[k + 1], w[k + 3], mods);
        AfterOpcodeAlike(t, w, k + 3, mods, Vex3Shape(t, w[k + 1], w[k + 3]), Vex3Shape(t, w[k + 1], w[k + 3]));
      }
    } else if w[k] == ESCAPE {
      AfterEscapeAlike(t, w, k + 1, mods);
    } else {
      ShapesAlike(t, 0, w[k], mods);
      AfterOneByteAlike(t, w, k, mods, OneByteShape(t, w[k], mods));
    }
  }

  lemma {:induction false} LeadAlike(t: Tables, w: seq<byte>, i: nat)
    requires i <= |w|
    ensures Lead(RetTables(t), w, i) == Lead(t, w, i)
    decreases |w| - i
  {
    if i < |w| && Skippable(t, w[i]) {
      LeadAlike(t, w, i + 1);
    }
  }

  /** On every byte stream the two copies agree on where the instruction ends,
      whether it is valid, and whether it is a RET. */
  lemma DecodersAgree(t: Tables, w: seq<byte>)
    ensures Alike(DecodeOne(t, w), DecodeOne(RetTables(t), w))
  {
    LeadAlike(t, w, 0);
    var k := Lead(t, w, 0);
    if k < |w| {
      AfterPrefixesAlike(t, w, k, ModsOf(w[..k]));
    }
  }

  // ---------------------------------------------------------------- the two loops

  datatype Step = Step(at: nat, len: nat, kind: Kind)

  // The run of complete instructions at the front of w, which starts at offset `at`.
  function Steps(t: Tables, w: seq<byte>, at: nat): seq<Step>
    decreases |w|
  {
    match DecodeOne(t, w)
    case Complete(n, k) => [Step(at, n, k)] + Steps(t, w[n..], at + n)
    case _ => []
  }

  // What repeated disassemble_code calls report, each resuming where the last one ended.
  function RepeatedScans(t: Tables, w: seq<byte>, at: nat): seq<(nat, Kind)>
    decreases |w|
  {
    match Scan(t, w)
    case Found(e, k, _) => [(at + e, k)] + RepeatedScans(t, w[e..], at + e)
    case _ => []
  }

  function BranchEnds(steps: seq<Step>): seq<(nat, Kind)> {
    if steps == [] then []
    else (if steps[0].kind.IsBranch() then [(steps[0].at + steps[0].len, steps[0].kind)] else [])
         + BranchEnds(steps[1..])
  }

  /** Repeated scans of a window report exactly the branches of its run of
      instructions, in order. */
  lemma {:induction false} ScansFollowSteps(t: Tables, w: seq<byte>, at: nat)
    ensures RepeatedScans(t, w, at) == BranchEnds(Steps(t, w, at))
    decreases |w|
  {
    hide DecodeOne;
    var d := DecodeOne(t, w);
    if d.Complete? {
      var n := d.len;
      ScansFollowSteps(t, w[n..], at + n);
      var steps := Steps(t, w, at);
      assert steps[1..] == Steps(t, w[n..], at + n);
      if !d.kind.IsBranch() {
        var r := Scan(t, w[n..]);
        if r.Found? {
          assert w[n..][r.end..] == w[n + r.end..];
        }
        assert RepeatedScans(t, w, at) == RepeatedScans(t, w[n..], at + n);
      }
    }
  }

  // Step i is the first RET of the run, and among its first n instructions.
  predicate FirstRet(steps: seq<Step>, n: nat, i: nat) {
    i < n && i < |steps| && steps[i].kind == Ret && forall j | 0 <= j < i :: steps[j].kind != Ret
  }

  predicate NoRetAmong(steps: seq<Step>, n: nat) {
    forall j | 0 <= j < n && j < |steps| :: steps[j].kind != Ret
  }

  lemma RetFurtherOn(steps: seq<Step>, n: nat)
    requires n > 0 && steps != [] && steps[0].kind != Ret
    ensures forall i: nat {:trigger FirstRet(steps[1..], n - 1, i)} ::
      FirstRet(steps[1..], n - 1, i) ==> FirstRet(steps, n, i + 1)
    ensures NoRetAmong(steps[1..], n - 1) ==> NoRetAmong(steps, n)
  {
    assert forall j | 0 < j < |steps| :: steps[j] == steps[1..][j - 1];
  }

  /** find_ret walks the same run of instructions: it returns the first byte,
      prefixes included, of the first RET among the first n of them ... */
  lemma {:induction false} SearchFindsFirstRet(t: Tables, w: seq<byte>, at: nat, n: nat) returns (i: nat)
    ensures var steps := Steps(t, w, at);
      match Search(t, w, n)
      case RetAt(p) => FirstRet(steps, n, i) && steps[i].at == at + p
      case _ => NoRetAmong(steps, n)
    decreases n
  {
    hide DecodeOne;
    DecodersAgree(t, w);
    var d := DecodeOne(t, w);
    i := 0;
    if n > 0 && d.Complete? && d.kind != Ret {
      var steps := Steps(t, w, at);
      assert steps[1..] == Steps(t, w[d.len..], at + d.len);
      i := SearchFindsFirstRet(t, w[d.len..], at + d.len, n - 1);
      RetFurtherOn(steps, n);
      i := i + 1;
    }
  }

  /** ... and without a RET there it stops where the run stops: at an invalid
      opcode, at the end of memory, or with its budget spent. */
  lemma {:induction false} SearchStopsWithSteps(t: Tables, w: seq<byte>, at: nat, n: nat)
    requires !Search(t, w, n).RetAt?
    ensures |Steps(t, w, at)| < n ==>
      match DecodeOne(t, w[SpanOf(t, w)..])
      case Invalid => Search(t, w, n) == NoRet
      case _ => Search(t, w, n) == OutOfMemory
    ensures |Steps(t, w, at)| >= n ==> Search(t, w, n) == NoRet
    decreases n
  {
    hide DecodeOne;
    DecodersAgree(t, w);
    var d := DecodeOne(t, w);
    if n > 0 && d.Complete? {
      assert Steps(t, w, at)[1..] == Steps(t, w[d.len..], at + d.len);
      SearchStopsWithSteps(t, w[d.len..], at + d.len, n - 1);
      assert w[d.len..][SpanOf(t, w[d.len..])..] == w[SpanOf(t, w)..];
    } else {
      assert w[0..] == w;
    }
  }

  // The number of bytes the run of instructions at the front of w covers.
  function SpanOf(t: Tables, w: seq<byte>): (n: nat)
    ensures n <= |w|
    decreases |w|
  {
    match DecodeOne(t, w)
    case Complete(n, _) => n + SpanOf(t, w[n..])
    case _ => 0
  }

  const MAX_ITERATIONS: nat := 1000

  /** The loop's limit: a RET is found if and only if one is among the first thousand
      instructions of the run, and then it is the first. */
  lemma ThousandInstructions(t: Tables, w: seq<byte>) returns (i: nat)
    ensures match Search(t, w, MAX_ITERATIONS)
      case RetAt(p) =>
        && i < 1000 && i < |Steps(t, w, 0)| && Steps(t, w, 0)[i].kind == Ret && Steps(t, w, 0)[i].at == p
        && forall j | 0 <= j < i :: Steps(t, w, 0)[j].kind != Ret
      case _ => forall j | 0 <= j < 1000 && j < |Steps(t, w, 0)| :: Steps(t, w, 0)[j].kind != Ret
  {
    hide Search, Steps;
    i := SearchFindsFirstRet(t, w, 0, MAX_ITERATIONS);
  }

  /** find_ret: the address of the RET, or 0.  The source reads memory without a
      bound; here a search that leaves the array says so instead. */
  method FindRet(t: Tables, mem: array<byte>, start: nat) returns (address: nat, outside: bool)
    requires TablesOk(t) && start <= mem.Length
    ensures start == 0 ==> address == 0 && !outside
    ensures start != 0 ==>
      match Search(t, mem[start..], MAX_ITERATIONS)
      case RetAt(p) => !outside && address == start + p
      case NoRet => !outside && address == 0
      case OutOfMemory => outside && address == 0
  {
    hide DecodeOne;
    NothingToDecode(RetTables(t));
    if start == 0 {
      return 0, false;
    }
    var cur, iter := start, 0;
    while true
      invariant start <= cur <= mem.Length && 0 <= iter <= MAX_ITERATIONS
      invariant Search(t, mem[start..], MAX_ITERATIONS)
             == Shift(cur - start, Search(t, mem[cur..], MAX_ITERATIONS - iter))
      decreases MAX_ITERATIONS - iter
    {
      iter := iter + 1;
      if iter > MAX_ITERATIONS {
        return 0, false;
      }
      var d := Incomplete;
      assert mem[cur..] == mem[cur..mem.Length];
      if cur < mem.Length {
        d := DecodeAt(RetTables(t), mem, cur, mem.Length);
      }
      if d.Incomplete? {
        return 0, true;
      } else if d.Invalid? {
        return 0, false;
      } else if d.kind == Ret {
        return cur, false;
      }
      assert mem[cur..][d.len..] == mem[cur + d.len..];
      cur := cur + d.len;
    }
  }
}
