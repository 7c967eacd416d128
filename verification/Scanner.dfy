/**
 What disassemble_code computes on a window: it decodes instruction after
 instruction until a branch, an invalid opcode, or the end of the window.

 Offsets are relative to the start of the window, so the window itself is the
 sequence of bytes from the start address to the end address.
 */
module Scanner {
  import opened Ld
  import opened Decoder

  // struct stats: seven counters of eight bits.
  datatype Stats = Stats(
    control: byte, arithmetic: byte, logical: byte, memory: byte,
    system: byte, misc: byte, vector: byte)

  const ZERO := Stats(0, 0, 0, 0, 0, 0, 0)

  // Addition of eight-bit counters, which wraps around.
  function Wrap(x: byte, y: byte): byte { if x + y < 256 then x + y else x + y - 256 }

  function Add(a: Stats, b: Stats): Stats {
    Stats(Wrap(a.control, b.control), Wrap(a.arithmetic, b.arithmetic), Wrap(a.logical, b.logical),
          Wrap(a.memory, b.memory), Wrap(a.system, b.system), Wrap(a.misc, b.misc), Wrap(a.vector, b.vector))
  }

  // The one counter an instruction of kind k increments.
  function One(k: Kind): Stats {
    match k
    case Jcc => ZERO.(control := 1)
    case Jmp => ZERO.(control := 1)
    case Ret => ZERO.(control := 1)
    case Call => ZERO.(control := 1)
    case Control => ZERO.(control := 1)
    case Arithmetic => ZERO.(arithmetic := 1)
    case Logical => ZERO.(logical := 1)
    case Memory => ZERO.(memory := 1)
    case System => ZERO.(system := 1)
    case Other => ZERO.(misc := 1)
    case Untyped => ZERO.(vector := 1)
  }

  lemma AddUnit(s: Stats)
    ensures Add(ZERO, s) == s && Add(s, ZERO) == s
  {
  }

  lemma AddAssociative(a: Stats, b: Stats, c: Stats)
    ensures Add(Add(a, b), c) == Add(a, Add(b, c))
  {
  }

  datatype Result = Found(end: nat, kind: Kind, stats: Stats)
                  | Continue(end: nat, stats: Stats)
                  | Failed(stats: Stats)

  // The result r, found n bytes further on with the counters s already run up.
  function After(n: nat, s: Stats, r: Result): Result {
    match r
    case Found(e, k, s') => Found(n + e, k, Add(s, s'))
    case Continue(e, s') => Continue(n + e, Add(s, s'))
    case Failed(s') => Failed(Add(s, s'))
  }

  lemma AfterAfter(n: nat, s: Stats, n': nat, s': Stats, r: Result)
    ensures After(n, s, After(n', s', r)) == After(n + n', Add(s, s'), r)
  {
    AddAssociative(s, s', r.stats);
  }

  lemma NothingToDecode(t: Tables)
    ensures DecodeOne(t, []) == Incomplete
  {
  }

  function Scan(t: Tables, w: seq<byte>): (r: Result)
    ensures !r.Failed? ==> r.end <= |w|
    ensures r.Found? ==> 1 <= r.end && r.kind.IsBranch()
    decreases |w|
  {
    match DecodeOne(t, w)
    case Invalid => Failed(ZERO)
    case Incomplete => Continue(0, ZERO)
    case Complete(n, k) =>
      if k.IsBranch() then Found(n, k, One(k))
      else After(n, One(k), Scan(t, w[n..]))
  }

  // ---------------------------------------------------------------- window extension

  /** Lengthening the window never changes a verdict that was reached; where the
      shorter window ran out, the longer one goes on from the byte at which it
      stopped, with the counters added. */
  lemma {:induction false} WindowExtension(t: Tables, w: seq<byte>, w': seq<byte>)
    requires w <= w'
    ensures !Scan(t, w).Continue? ==> Scan(t, w') == Scan(t, w)
    ensures Scan(t, w).Continue? ==>
      Scan(t, w') == After(Scan(t, w).end, Scan(t, w).stats, Scan(t, w'[Scan(t, w).end..]))
    decreases |w|
  {
    hide DecodeOne, One, Add;
    var d := DecodeOne(t, w);
    match d
    case Incomplete =>
      assert w'[0..] == w';
      AddUnit(Scan(t, w').stats);
    case Invalid =>
      DecodeOfLonger(t, w, w');
    case Complete(n, k) =>
      DecodeOfLonger(t, w, w');
      if !k.IsBranch() {
        WindowExtension(t, w[n..], w'[n..]);
        ExtendAfter(t, w', n, One(k), Scan(t, w[n..]));
      }
  }

  lemma ExtendAfter(t: Tables, w': seq<byte>, n: nat, s: Stats, r: Result)
    requires n <= |w'| && (r.Continue? ==> n + r.end <= |w'|)
    requires !r.Continue? ==> Scan(t, w'[n..]) == r
    requires r.Continue? ==> Scan(t, w'[n..]) == After(r.end, r.stats, Scan(t, w'[n..][r.end..]))
    ensures !r.Continue? ==> After(n, s, Scan(t, w'[n..])) == After(n, s, r)
    ensures r.Continue? ==>
      After(n, s, Scan(t, w'[n..])) == After(n + r.end, Add(s, r.stats), Scan(t, w'[n + r.end..]))
  {
    if r.Continue? {
      assert w'[n..][r.end..] == w'[n + r.end..];
      AfterAfter(n, s, r.end, r.stats, Scan(t, w'[n + r.end..]));
    }
  }

  // ---------------------------------------------------------------- decomposition

  function Flatten(xs: seq<Instr>): seq<byte> {
    if xs == [] then [] else Encode(xs[0]) + Flatten(xs[1..])
  }

  predicate AllWellFormed(t: Tables, xs: seq<Instr>) {
    forall x | x in xs :: WellFormed(t, x)
  }

  predicate Plain(t: Tables, x: Instr) { WellFormed(t, x) && !KindOf(t, x).IsBranch() }

  predicate AllPlain(t: Tables, xs: seq<Instr>) {
    forall x | x in xs :: Plain(t, x)
  }

  // The counters after the instructions xs.
  function Tally(t: Tables, xs: seq<Instr>): Stats
    requires AllWellFormed(t, xs)
  {
    if xs == [] then ZERO else Add(One(KindOf(t, xs[0])), Tally(t, xs[1..]))
  }

  // How a window looks from the outside when the scan of it gives r.
  ghost predicate Explains(t: Tables, w: seq<byte>, xs: seq<Instr>, r: Result) {
    && AllPlain(t, xs)
    && Flatten(xs) <= w
    && var rest := w[|Flatten(xs)|..];
       match r
       case Continue(e, s) => e == |Flatten(xs)| && s == Tally(t, xs) && DecodeOne(t, rest).Incomplete?
       case Failed(s) => s == Tally(t, xs) && DecodeOne(t, rest).Invalid?
       case Found(e, k, s) =>
         exists x :: && WellFormed(t, x) && KindOf(t, x) == k && k.IsBranch() && Encode(x) <= rest
                     && e == |Flatten(xs)| + |Encode(x)| && s == Add(Tally(t, xs), One(k))
  }

  /** The scan's result always has an explanation: the bytes it consumed are a run
      of non-branch instructions, closed by one branch when it reports one. */
  lemma {:induction false} ScanIsExplained(t: Tables, w: seq<byte>) returns (xs: seq<Instr>)
    requires TablesOk(t)
    ensures Explains(t, w, xs, Scan(t, w))
    decreases |w|
  {
    hide WellFormed, KindOf, Encode, DecodeOne, Add, One;
    var d := DecodeOne(t, w);
    if !d.Complete? {
      xs := [];
      assert w[0..] == w;
    } else {
      var x := DecodeThenEncode(t, w);
      var n := d.len;
      if d.kind.IsBranch() {
        xs := [];
        assert w[0..] == w;
        assert w[..n] <= w;
        AddUnit(One(d.kind));
      } else {
        var ys := ScanIsExplained(t, w[n..]);
        xs := [x] + ys;
        ExplainCons(t, w, x, ys, Scan(t, w[n..]));
      }
    }
  }

  lemma ExplainCons(t: Tables, w: seq<byte>, x: Instr, ys: seq<Instr>, r: Result)
    requires Plain(t, x) && Encode(x) <= w
    requires Explains(t, w[|Encode(x)|..], ys, r)
    ensures Explains(t, w, [x] + ys, After(|Encode(x)|, One(KindOf(t, x)), r))
  {
    hide WellFormed, KindOf, Encode, DecodeOne, Add, One;
    var n, xs := |Encode(x)|, [x] + ys;
    assert xs[1..] == ys;
    assert AllPlain(t, xs);
    assert w == w[..n] + w[n..];
    assert Flatten(xs) == Encode(x) + Flatten(ys);
    assert w[n..][|Flatten(ys)|..] == w[|Flatten(xs)|..];
    if r.Found? {
      AddAssociative(One(KindOf(t, x)), Tally(t, ys), One(r.kind));
      var b :| WellFormed(t, b) && KindOf(t, b) == r.kind && Encode(b) <= w[n..][|Flatten(ys)|..]
        && r.end == |Flatten(ys)| + |Encode(b)| && r.stats == Add(Tally(t, ys), One(r.kind));
      assert Encode(b) <= w[|Flatten(xs)|..];
    }
  }

  /** The scan steps over any run of non-branch instructions it is given. */
  lemma {:induction false} ScanSkips(t: Tables, w: seq<byte>, xs: seq<Instr>)
    requires TablesOk(t) && AllPlain(t, xs) && Flatten(xs) <= w
    ensures Scan(t, w) == After(|Flatten(xs)|, Tally(t, xs), Scan(t, w[|Flatten(xs)|..]))
  {
    hide WellFormed, KindOf, Encode, DecodeOne, Add, One;
    if xs == [] {
      assert w[0..] == w;
      AddUnit(Scan(t, w).stats);
    } else {
      var x, ys := xs[0], xs[1..];
      var n := |Encode(x)|;
      assert x in xs && Encode(x) <= Flatten(xs);
      EncodeThenDecode(t, x, w);
      assert Flatten(ys) == Flatten(xs)[n..] <= w[n..];
      ScanSkips(t, w[n..], ys);
      assert w[n..][|Flatten(ys)|..] == w[|Flatten(xs)|..];
      AfterAfter(n, One(KindOf(t, x)), |Flatten(ys)|, Tally(t, ys), Scan(t, w[|Flatten(xs)|..]));
    }
  }

  /** ... and so an explanation determines the result. */
  lemma ExplanationDecides(t: Tables, w: seq<byte>, xs: seq<Instr>, r: Result)
    requires TablesOk(t) && Explains(t, w, xs, r)
    ensures Scan(t, w) == r
  {
    ScanSkips(t, w, xs);
    var rest := w[|Flatten(xs)|..];
    AddUnit(Tally(t, xs));
    if r.Found? {
      var x :| WellFormed(t, x) && KindOf(t, x) == r.kind && Encode(x) <= rest
        && r.end == |Flatten(xs)| + |Encode(x)| && r.stats == Add(Tally(t, xs), One(r.kind));
      EncodeThenDecode(t, x, rest);
    }
  }

  function Total(s: Stats): nat {
    s.control + s.arithmetic + s.logical + s.memory + s.system + s.misc + s.vector
  }

  /** Each decoded instruction is counted once, in one of the seven counters. */
  lemma {:induction false} EachCountedOnce(t: Tables, xs: seq<Instr>)
    requires AllWellFormed(t, xs)
    ensures Total(Tally(t, xs)) % 256 == |xs| % 256
  {
    if xs != [] {
      assert xs[0] in xs;
      var k := KindOf(t, xs[0]);
      EachCountedOnce(t, xs[1..]);
      TotalOfAdd(One(k), Tally(t, xs[1..]));
      TotalOfOne(k);
      OneMore(Total(Tally(t, xs[1..])), |xs| - 1);
    }
  }

  lemma OneMore(a: nat, b: nat)
    requires a % 256 == b % 256
    ensures (1 + a) % 256 == (1 + b) % 256
  {
  }

  lemma TotalOfOne(k: Kind)
    ensures Total(One(k)) == 1
  {
    var s := One(k);
    assert s == ZERO.(control := 1) || s == ZERO.(arithmetic := 1) || s == ZERO.(logical := 1)
        || s == ZERO.(memory := 1) || s == ZERO.(system := 1) || s == ZERO.(misc := 1) || s == ZERO.(vector := 1);
  }

  lemma TotalOfAdd(a: Stats, b: Stats)
    ensures Total(Add(a, b)) % 256 == (Total(a) + Total(b)) % 256
  {
    var carries := Count(a.control + b.control >= 256) + Count(a.arithmetic + b.arithmetic >= 256)
      + Count(a.logical + b.logical >= 256) + Count(a.memory + b.memory >= 256)
      + Count(a.system + b.system >= 256) + Count(a.misc + b.misc >= 256) + Count(a.vector + b.vector >= 256);
    assert Total(a) + Total(b) == Total(Add(a, b)) + 256 * carries;
  }

  // The number of instructions of xs whose kind is one of ks.
  function HowMany(t: Tables, xs: seq<Instr>, ks: set<Kind>): nat
    requires AllWellFormed(t, xs)
  {
    if xs == [] then 0 else (if KindOf(t, xs[0]) in ks then 1 else 0) + HowMany(t, xs[1..], ks)
  }

  // One of the seven counters.
  datatype Counter = OfControl | OfArithmetic | OfLogical | OfMemory | OfSystem | OfMisc | OfVector

  function Reading(s: Stats, c: Counter): byte {
    match c
    case OfControl => s.control
    case OfArithmetic => s.arithmetic
    case OfLogical => s.logical
    case OfMemory => s.memory
    case OfSystem => s.system
    case OfMisc => s.misc
    case OfVector => s.vector
  }

  // The kinds it counts: branches count as control flow, what has no type of its own as
  // miscellaneous, and vector instructions have a counter to themselves.
  function Counts(c: Counter): set<Kind> {
    match c
    case OfControl => {Jcc, Jmp, Call, Ret, Control}
    case OfArithmetic => {Arithmetic}
    case OfLogical => {Logical}
    case OfMemory => {Memory}
    case OfSystem => {System}
    case OfMisc => {Other}
    case OfVector => {Untyped}
  }

  /** Each counter is the number of instructions of its kinds, modulo 256. */
  lemma {:induction false} EachInItsCounter(t: Tables, xs: seq<Instr>, c: Counter)
    requires AllWellFormed(t, xs)
    ensures Reading(Tally(t, xs), c) == HowMany(t, xs, Counts(c)) % 256
  {
    hide WellFormed, KindOf, One, Add, Counts, Reading;
    if xs == [] {
      NoCount(c);
    } else {
      assert xs[0] in xs;
      EachInItsCounter(t, xs[1..], c);
      CountOfOne(KindOf(t, xs[0]), c);
      CountOfAdd(One(KindOf(t, xs[0])), Tally(t, xs[1..]), c);
    }
  }

  lemma NoCount(c: Counter)
    ensures Reading(ZERO, c) == 0
  {
  }

  lemma CountOfOne(k: Kind, c: Counter)
    ensures Reading(One(k), c) == if k in Counts(c) then 1 else 0
  {
  }

  lemma CountOfAdd(a: Stats, b: Stats, c: Counter)
    ensures Reading(Add(a, b), c) == (Reading(a, c) + Reading(b, c)) % 256
  {
  }
}
