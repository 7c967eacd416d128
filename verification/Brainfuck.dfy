/**
 The two brainfuck interpreters: one walks the text with a table of matching
 brackets (user/jit-benchmarks/brainfuck), one runs a parsed tree
 (user/jit-benchmarks/brainfuck2).

 Python's integers are unbounded, and so are the cells.  chr() is left out: the
 output is the sequence of the cells printed.  Running takes a fuel, because a
 program need not end.
 */
module BrainfuckTape {
  // The tape and the output.  `left` remembers whether `<` was executed at cell 0.
  datatype Machine = Machine(cells: seq<int>, pos: int, out: seq<int>, left: bool)

  const BLANK := Machine([0], 0, [], false)

  // Python's indexing: a negative position counts from the end.
  function Slot(m: Machine): int { if m.pos < 0 then |m.cells| + m.pos else m.pos }

  predicate InTape(m: Machine) { 0 <= Slot(m) < |m.cells| }

  function Cell(m: Machine): int
    requires InTape(m)
  {
    m.cells[Slot(m)]
  }

  function Bump(m: Machine, v: int): Machine
    requires InTape(m)
  {
    m.(cells := m.cells[Slot(m) := Cell(m) + v])
  }

  function Printed(m: Machine): Machine
    requires InTape(m)
  {
    m.(out := m.out + [Cell(m)])
  }

  // advance and devance of the first interpreter: it stays at cell 0.
  function Advance(m: Machine): Machine {
    m.(pos := m.pos + 1, cells := if |m.cells| <= m.pos + 1 then m.cells + [0] else m.cells)
  }

  function Devance(m: Machine): Machine {
    if m.pos > 0 then m.(pos := m.pos - 1) else m.(left := true)
  }

  function Extended(cells: seq<int>, pos: int): (r: seq<int>)
    ensures pos < |r|
    decreases pos - |cells|
  {
    if pos >= |cells| then Extended(cells + [0], pos) else cells
  }

  // move of the second: it goes on to negative positions.
  function MoveBy(m: Machine, v: int): Machine {
    m.(pos := m.pos + v, cells := Extended(m.cells, m.pos + v), left := m.left || m.pos + v < 0)
  }

  datatype Outcome = Done(m: Machine) | Raised | OutOfFuel

  // The head is on the tape.
  predicate Good(m: Machine) { 0 <= m.pos < |m.cells| }

  lemma SameMoves(m: Machine)
    requires Good(m)
    ensures MoveBy(m, 1) == Advance(m) && Good(Advance(m))
    ensures m.pos > 0 ==> MoveBy(m, -1) == Devance(m) && Good(Devance(m))
    ensures m.pos == 0 ==> MoveBy(m, -1).left && Devance(m).left
  {
    var next := m.cells + [0];
    assert Extended(next, m.pos + 1) == next;
    assert Extended(m.cells, m.pos + 1) == if m.pos + 1 >= |m.cells| then next else m.cells;
  }
}

module BrainfuckText {
  predicate IsCommand(c: char) {
    c == '[' || c == ']' || c == '<' || c == '>' || c == '+' || c == '-' || c == ',' || c == '.'
  }

  function Filter(text: seq<char>): seq<char> {
    if text == [] then [] else (if IsCommand(text[0]) then [text[0]] else []) + Filter(text[1..])
  }

  // Read at nesting depth d, the brackets of code close one another and leave none open.
  predicate Balanced(code: seq<char>, d: nat) {
    if code == [] then d == 0
    else if code[0] == '[' then Balanced(code[1..], d + 1)
    else if code[0] == ']' then d > 0 && Balanced(code[1..], d - 1)
    else Balanced(code[1..], d)
  }

  /** A balanced text as a tree. */
  datatype Node = Cmd(c: char) | Block(body: seq<Node>)

  predicate Plain(c: char) { c != '[' && c != ']' }

  predicate AllPlain(nodes: seq<Node>) {
    nodes != [] ==> (if nodes[0].Cmd? then Plain(nodes[0].c) else AllPlain(nodes[0].body)) && AllPlain(nodes[1..])
  }

  function Flat(nodes: seq<Node>): seq<char> {
    if nodes == [] then []
    else (if nodes[0].Cmd? then [nodes[0].c] else ['['] + Flat(nodes[0].body) + [']']) + Flat(nodes[1..])
  }

  // The nodes at the front of code, up to a bracket that closes none of them.
  function Read(code: seq<char>): (r: (seq<Node>, seq<char>))
    ensures |r.1| <= |code| && (r.1 == [] || r.1[0] == ']')
    decreases |code|
  {
    if code == [] || code[0] == ']' then ([], code)
    else if code[0] == '[' then
      var (body, rest) := Read(code[1..]);
      if rest == [] then ([], [])
      else
        var (nodes, rest') := Read(rest[1..]);
        ([Block(body)] + nodes, rest')
    else
      var (nodes, rest) := Read(code[1..]);
      ([Cmd(code[0])] + nodes, rest)
  }

  /** Every balanced text is the text of a tree. */
  lemma {:induction false} ReadBalanced(code: seq<char>, d: nat)
    requires Balanced(code, d)
    ensures code == Flat(Read(code).0) + Read(code).1 && AllPlain(Read(code).0)
    ensures if d == 0 then Read(code).1 == [] else Read(code).1 != [] && Balanced(Read(code).1[1..], d - 1)
    decreases |code|
  {
    hide Flat, AllPlain;
    FlatNothing();
    if code != [] && code[0] == '[' {
      ReadBalanced(code[1..], d + 1);
      var (body, rest) := Read(code[1..]);
      ReadBalanced(rest[1..], d);
      var (nodes, rest') := Read(rest[1..]);
      FlatCons(Block(body), nodes);
      Brackets(code, Flat(body), rest, Flat(nodes), rest');
    } else if code != [] && code[0] != ']' {
      ReadBalanced(code[1..], d);
      FlatCons(Cmd(code[0]), Read(code[1..]).0);
      assert code == [code[0]] + code[1..];
    }
  }

  lemma FlatNothing()
    ensures Flat([]) == [] && AllPlain([])
  {
  }

  lemma Brackets(code: seq<char>, inner: seq<char>, rest: seq<char>, after: seq<char>, rest': seq<char>)
    requires code != [] && code[0] == '[' && code[1..] == inner + rest
    requires rest != [] && rest[0] == ']' && rest[1..] == after + rest'
    ensures code == (['['] + inner + [']']) + after + rest'
  {
    assert code == ['['] + code[1..] && rest == [']'] + rest[1..];
  }

  lemma FlatCons(n: Node, nodes: seq<Node>)
    ensures Flat([n] + nodes) == (if n.Cmd? then [n.c] else ['['] + Flat(n.body) + [']']) + Flat(nodes)
    ensures AllPlain([n] + nodes) <==> (if n.Cmd? then Plain(n.c) else AllPlain(n.body)) && AllPlain(nodes)
  {
    assert ([n] + nodes)[1..] == nodes;
  }
}

module BrainfuckBrackets {
  import opened BrainfuckText

  // bracket_map and leftstack after a prefix of the code.
  datatype Scan = Scan(jumps: map<nat, nat>, open: seq<nat>)

  function Brackets(code: seq<char>, k: nat): Scan
    requires k <= |code|
  {
    if k == 0 then Scan(map[], [])
    else
      var s := Brackets(code, k - 1);
      if code[k - 1] == '[' then s.(open := s.open + [k - 1])
      else if code[k - 1] == ']' && s.open != [] then
        var left := s.open[|s.open| - 1];
        Scan(s.jumps[left := k - 1][k - 1 := left], s.open[..|s.open| - 1])
      else s
  }

  // The table of a tree whose text begins at k: each bracket of a block points to the other.
  function JumpsOf(nodes: seq<Node>, k: nat): map<nat, nat> {
    if nodes == [] then map[]
    else
      match nodes[0]
      case Cmd(_) => JumpsOf(nodes[1..], k + 1)
      case Block(body) =>
        var j := k + 1 + |Flat(body)|;
        JumpsOf(body, k + 1)[k := j][j := k] + JumpsOf(nodes[1..], j + 1)
  }

  // nodes is the text of code from k on.
  predicate At(code: seq<char>, k: nat, nodes: seq<Node>) { TextAt(code, k, Flat(nodes)) }

  predicate TextAt(code: seq<char>, k: nat, text: seq<char>) { k + |text| <= |code| && code[k..k + |text|] == text }

  lemma SplitAt(code: seq<char>, k: nat, a: seq<char>, b: seq<char>)
    requires TextAt(code, k, a + b)
    ensures TextAt(code, k, a) && TextAt(code, k + |a|, b)
  {
    var w := code[k..k + |a + b|];
    assert w[..|a|] == a && w[|a|..] == b;
    assert code[k..k + |a|] == w[..|a|] && code[k + |a|..k + |a| + |b|] == w[|a|..];
  }

  lemma AtBound(code: seq<char>, k: nat, nodes: seq<Node>)
    requires At(code, k, nodes)
    ensures k + |Flat(nodes)| <= |code|
  {
  }

  lemma CharAt(code: seq<char>, k: nat, c: char)
    requires TextAt(code, k, [c])
    ensures k < |code| && code[k] == c
  {
    assert code[k..k + 1][0] == code[k];
  }

  lemma AtCons(code: seq<char>, k: nat, nodes: seq<Node>)
    requires At(code, k, nodes) && nodes != []
    ensures nodes[0].Cmd? ==>
      k < |code| && code[k] == nodes[0].c && At(code, k + 1, nodes[1..]) && |Flat(nodes)| == 1 + |Flat(nodes[1..])|
    ensures nodes[0].Block? ==>
      (var j := k + 1 + |Flat(nodes[0].body)|;
       && At(code, k + 1, nodes[0].body) && j < |code| && code[k] == '[' && code[j] == ']'
       && At(code, j + 1, nodes[1..]) && k + |Flat(nodes)| == j + 1 + |Flat(nodes[1..])|)
  {
    hide Flat, TextAt;
    assert nodes == [nodes[0]] + nodes[1..];
    FlatCons(nodes[0], nodes[1..]);
    var rest := Flat(nodes[1..]);
    if nodes[0].Cmd? {
      CmdAt(code, k, nodes[0].c, rest);
    } else {
      BlockAt(code, k, Flat(nodes[0].body), rest);
    }
  }

  lemma CmdAt(code: seq<char>, k: nat, c: char, rest: seq<char>)
    requires TextAt(code, k, [c] + rest)
    ensures k < |code| && code[k] == c && TextAt(code, k + 1, rest)
  {
    hide TextAt;
    SplitAt(code, k, [c], rest);
    CharAt(code, k, c);
  }

  lemma BlockAt(code: seq<char>, k: nat, inner: seq<char>, rest: seq<char>)
    requires TextAt(code, k, ['['] + inner + [']'] + rest)
    ensures var j := k + 1 + |inner|;
      TextAt(code, k + 1, inner) && j < |code| && code[k] == '[' && code[j] == ']' && TextAt(code, j + 1, rest)
  {
    hide TextAt;
    SplitAt(code, k, ['['] + inner + [']'], rest);
    SplitAt(code, k, ['['] + inner, [']']);
    SplitAt(code, k, ['['], inner);
    CharAt(code, k, '[');
    CharAt(code, k + 1 + |inner|, ']');
  }

  lemma {:induction false} JumpsInside(nodes: seq<Node>, k: nat)
    ensures forall p | p in JumpsOf(nodes, k) :: k <= p < k + |Flat(nodes)|
  {
    if nodes != [] {
      match nodes[0]
      case Cmd(_) => JumpsInside(nodes[1..], k + 1);
      case Block(body) =>
        JumpsInside(body, k + 1);
        JumpsInside(nodes[1..], k + 1 + |Flat(body)| + 1);
    }
  }

  /** The stack algorithm finds the table of the tree. */
  lemma {:induction false} BracketsOfFlat(code: seq<char>, k: nat, nodes: seq<Node>)
    requires At(code, k, nodes) && AllPlain(nodes)
    ensures var s := Brackets(code, k);
      Brackets(code, k + |Flat(nodes)|) == Scan(s.jumps + JumpsOf(nodes, k), s.open)
    decreases nodes
  {
    hide Flat, At, TextAt, Brackets;
    AtBound(code, k, nodes);
    var s := Brackets(code, k);
    if nodes == [] {
      FlatNothing();
      assert s.jumps + map[] == s.jumps;
    } else {
      AtCons(code, k, nodes);
      match nodes[0]
      case Cmd(c) =>
        OtherCharacter(code, k);
        BracketsOfFlat(code, k + 1, nodes[1..]);
      case Block(body) =>
        var j := k + 1 + |Flat(body)|;
        OtherCharacter(code, k);
        BracketsOfFlat(code, k + 1, body);
        ClosingBracket(code, j, k, s, JumpsOf(body, k + 1));
        BracketsOfFlat(code, j + 1, nodes[1..]);
        MergeJumps(s.jumps, JumpsOf(body, k + 1)[k := j][j := k], JumpsOf(nodes[1..], j + 1));
    }
  }

  lemma OtherCharacter(code: seq<char>, k: nat)
    requires k < |code| && code[k] != ']'
    ensures var s := Brackets(code, k);
      Brackets(code, k + 1) == if code[k] == '[' then s.(open := s.open + [k]) else s
  {
  }

  lemma ClosingBracket(code: seq<char>, j: nat, k: nat, s: Scan, inner: map<nat, nat>)
    requires j < |code| && code[j] == ']' && Brackets(code, j) == Scan(s.jumps + inner, s.open + [k])
    ensures Brackets(code, j + 1) == Scan(s.jumps + inner[k := j][j := k], s.open)
  {
    assert (s.open + [k])[..|s.open|] == s.open;
    assert (s.jumps + inner)[k := j][j := k] == s.jumps + inner[k := j][j := k];
  }

  lemma MergeJumps(a: map<nat, nat>, b: map<nat, nat>, c: map<nat, nat>)
    ensures a + b + c == a + (b + c)
  {
  }

  // Each bracket in the table points to its partner.
  predicate Paired(jumps: map<nat, nat>) { forall p | p in jumps :: jumps[p] in jumps && jumps[jumps[p]] == p }

  lemma {:induction false} JumpsPaired(nodes: seq<Node>, k: nat)
    ensures Paired(JumpsOf(nodes, k))
  {
    if nodes != [] {
      match nodes[0]
      case Cmd(_) => JumpsPaired(nodes[1..], k + 1);
      case Block(body) =>
        var j := k + 1 + |Flat(body)|;
        JumpsPaired(body, k + 1);
        JumpsPaired(nodes[1..], j + 1);
        JumpsInside(body, k + 1);
        JumpsInside(nodes[1..], j + 1);
        PairedJoin(JumpsOf(body, k + 1), JumpsOf(nodes[1..], j + 1), k, j);
    }
  }

  lemma PairedJoin(inner: map<nat, nat>, rest: map<nat, nat>, k: nat, j: nat)
    requires Paired(inner) && Paired(rest) && k < j
    requires (forall p | p in inner :: k < p < j) && forall p | p in rest :: j < p
    ensures Paired(inner[k := j][j := k] + rest)
  {
    var all := inner[k := j][j := k] + rest;
    forall p | p in all ensures all[p] in all && all[all[p]] == p {
      if p in inner {
        assert inner[p] in inner;
      } else if p in rest {
        assert rest[p] in rest;
      }
    }
  }
}

module Brainfuck {
  import opened BrainfuckTape
  import opened BrainfuckText
  import opened BrainfuckBrackets

  // ---------------------------------------------------------------- the jump-table interpreter

  // A bracket that is taken goes to its partner, and on from there.
  predicate Jumps(c: char, m: Machine)
    requires InTape(m)
  {
    (c == '[' && Cell(m) == 0) || (c == ']' && Cell(m) != 0)
  }

  function Act(c: char, m: Machine): Machine
    requires InTape(m)
  {
    if c == '+' then Bump(m, 1)
    else if c == '-' then Bump(m, -1)
    else if c == '>' then Advance(m)
    else if c == '<' then Devance(m)
    else if c == '.' then Printed(m)
    else m
  }

  function Run(code: seq<char>, jumps: map<nat, nat>, pc: nat, m: Machine, fuel: nat): Outcome
    decreases fuel
  {
    if pc >= |code| then Done(m)
    else if fuel == 0 then OutOfFuel
    else if !InTape(m) then Raised
    else if Jumps(code[pc], m) then
      (if pc in jumps then Run(code, jumps, jumps[pc] + 1, m, fuel - 1) else Raised)
    else Run(code, jumps, pc + 1, Act(code[pc], m), fuel - 1)
  }

  // ---------------------------------------------------------------- the tree interpreter

  datatype Op = Inc(v: int) | Move(v: int) | Loop(body: seq<Op>) | Print

  function Exec(ops: seq<Op>, m: Machine, fuel: nat): Outcome
    decreases fuel, ops
  {
    if ops == [] then Done(m)
    else
      match ops[0]
      case Inc(v) => if InTape(m) then Exec(ops[1..], Bump(m, v), fuel) else Raised
      case Move(v) => Exec(ops[1..], MoveBy(m, v), fuel)
      case Print => if InTape(m) then Exec(ops[1..], Printed(m), fuel) else Raised
      case Loop(body) =>
        if !InTape(m) then Raised
        else if Cell(m) == 0 then Exec(ops[1..], m, fuel)
        else if fuel == 0 then OutOfFuel
        else
          match Exec(body, m, fuel - 1)
          case Done(m') => Exec(ops, m', fuel - 1)
          case other => other
  }

  function OpOf(c: char): seq<Op> {
    if c == '+' then [Inc(1)]
    else if c == '-' then [Inc(-1)]
    else if c == '>' then [Move(1)]
    else if c == '<' then [Move(-1)]
    else if c == '.' then [Print]
    else []
  }

  // parse, up to the bracket that ends the list: the operations and the text after it.
  function Parse(text: seq<char>): (r: (seq<Op>, seq<char>))
    ensures |r.1| <= |text| && (text != [] ==> |r.1| < |text|)
    decreases |text|
  {
    if text == [] then ([], [])
    else if text[0] == ']' then ([], text[1..])
    else if text[0] == '[' then
      var (body, rest) := Parse(text[1..]);
      var (ops, rest') := Parse(rest);
      ([Loop(body)] + ops, rest')
    else
      var (ops, rest) := Parse(text[1..]);
      (OpOf(text[0]) + ops, rest)
  }

  function Ops(nodes: seq<Node>): seq<Op> {
    if nodes == [] then []
    else (if nodes[0].Cmd? then OpOf(nodes[0].c) else [Loop(Ops(nodes[0].body))]) + Ops(nodes[1..])
  }

  lemma ParseCons(c: char, x: seq<char>)
    ensures Plain(c) ==> Parse([c] + x) == (OpOf(c) + Parse(x).0, Parse(x).1)
    ensures Parse(['['] + x) == ([Loop(Parse(x).0)] + Parse(Parse(x).1).0, Parse(Parse(x).1).1)
    ensures Parse([']'] + x) == ([], x) && Parse([]) == ([], [])
  {
    assert ([c] + x)[1..] == x && (['['] + x)[1..] == x && ([']'] + x)[1..] == x;
  }

  // Characters that are no commands do not matter to the parser either.
  lemma {:induction false} ParseFiltered(text: seq<char>)
    ensures Parse(Filter(text)).0 == Parse(text).0 && Parse(Filter(text)).1 == Filter(Parse(text).1)
    decreases |text|
  {
    hide Parse;
    ParseCons('+', []);
    if text != [] {
      var c, x, f := text[0], text[1..], Filter(text[1..]);
      assert text == [c] + x;
      ParseFiltered(x);
      ParseCons(c, x);
      ParseCons(c, f);
      assert Filter(text) == if IsCommand(c) then [c] + f else f;
      if c == '[' {
        ParseShrinks(x);
        ParseFiltered(Parse(x).1);
      } else if !IsCommand(c) {
        assert OpOf(c) + Parse(x).0 == Parse(x).0;
      }
    }
  }

  lemma ParseShrinks(text: seq<char>)
    ensures |Parse(text).1| <= |text|
  {
  }

  /** Parsing the text of a tree gives the tree's operations. */
  lemma {:induction false} ParseFlat(nodes: seq<Node>, rest: seq<char>)
    requires AllPlain(nodes) && (rest == [] || rest[0] == ']')
    ensures Parse(Flat(nodes) + rest) == (Ops(nodes), if rest == [] then [] else rest[1..])
    decreases nodes
  {
    hide Parse, Flat;
    FlatNothing();
    if nodes == [] {
      assert [] + rest == rest;
      if rest != [] {
        assert rest == [']'] + rest[1..];
        ParseCons('+', rest[1..]);
      } else {
        ParseCons('+', []);
      }
    } else {
      var after := Flat(nodes[1..]) + rest;
      assert nodes == [nodes[0]] + nodes[1..];
      FlatCons(nodes[0], nodes[1..]);
      ParseFlat(nodes[1..], rest);
      if nodes[0].Cmd? {
        var c := nodes[0].c;
        assert [c] + Flat(nodes[1..]) + rest == [c] + after;
        ParseCons(c, after);
      } else {
        var b := Flat(nodes[0].body);
        ParseFlat(nodes[0].body, [']'] + after);
        Regroup(b, Flat(nodes[1..]), rest);
        ParseCons('+', b + ([']'] + after));
        assert ([']'] + after)[1..] == after;
      }
    }
  }

  lemma Regroup(b: seq<char>, f: seq<char>, rest: seq<char>)
    ensures (['['] + b + [']']) + f + rest == ['['] + (b + ([']'] + (f + rest)))
  {
  }

  // ---------------------------------------------------------------- fuel and the left edge

  lemma {:induction false} MoreFuel(ops: seq<Op>, m: Machine, fuel: nat, more: nat)
    requires Exec(ops, m, fuel).Done? && fuel <= more
    ensures Exec(ops, m, more) == Exec(ops, m, fuel)
    decreases fuel, ops
  {
    if ops != [] {
      match ops[0]
      case Inc(v) => MoreFuel(ops[1..], Bump(m, v), fuel, more);
      case Move(v) => MoreFuel(ops[1..], MoveBy(m, v), fuel, more);
      case Print => MoreFuel(ops[1..], Printed(m), fuel, more);
      case Loop(body) =>
        if Cell(m) == 0 {
          MoreFuel(ops[1..], m, fuel, more);
        } else {
          MoreFuel(body, m, fuel - 1, more - 1);
          MoreFuel(ops, Exec(body, m, fuel - 1).m, fuel - 1, more - 1);
        }
    }
  }

  // Having moved left of cell 0 is never forgotten.
  lemma {:induction false} ExecLeft(ops: seq<Op>, m: Machine, fuel: nat)
    requires Exec(ops, m, fuel).Done? && m.left
    ensures Exec(ops, m, fuel).m.left
    decreases fuel, ops
  {
    if ops != [] {
      match ops[0]
      case Inc(v) => ExecLeft(ops[1..], Bump(m, v), fuel);
      case Move(v) => ExecLeft(ops[1..], MoveBy(m, v), fuel);
      case Print => ExecLeft(ops[1..], Printed(m), fuel);
      case Loop(body) =>
        if Cell(m) == 0 {
          ExecLeft(ops[1..], m, fuel);
        } else {
          ExecLeft(body, m, fuel - 1);
          ExecLeft(ops, Exec(body, m, fuel - 1).m, fuel - 1);
        }
    }
  }

  lemma {:induction false} RunLeft(code: seq<char>, jumps: map<nat, nat>, pc: nat, m: Machine, fuel: nat)
    requires Run(code, jumps, pc, m, fuel).Done? && m.left
    ensures Run(code, jumps, pc, m, fuel).m.left
    decreases fuel
  {
    if pc < |code| {
      if Jumps(code[pc], m) {
        RunLeft(code, jumps, jumps[pc] + 1, m, fuel - 1);
      } else {
        RunLeft(code, jumps, pc + 1, Act(code[pc], m), fuel - 1);
      }
    }
  }

  // ---------------------------------------------------------------- one command, one block

  // A command away from the left edge does the same in both.
  lemma CommandAgrees(c: char, m: Machine, rest: seq<Op>, fuel: nat)
    requires Good(m) && Plain(c)
    ensures !Jumps(c, m)
    ensures !Act(c, m).left ==> Good(Act(c, m)) && Exec(OpOf(c) + rest, m, fuel) == Exec(rest, Act(c, m), fuel)
    ensures Act(c, m).left && Exec(OpOf(c) + rest, m, fuel).Done? ==> Exec(OpOf(c) + rest, m, fuel).m.left
  {
    SameMoves(m);
    if OpOf(c) == [] {
      assert OpOf(c) + rest == rest;
      if m.left && Exec(rest, m, fuel).Done? {
        ExecLeft(rest, m, fuel);
      }
    } else {
      var ops := OpOf(c) + rest;
      assert ops[0] == OpOf(c)[0] && ops[1..] == rest;
      var m' := if c == '<' then MoveBy(m, -1) else Act(c, m);
      assert Exec(ops, m, fuel) == Exec(rest, m', fuel);
      if m'.left && Exec(rest, m', fuel).Done? {
        ExecLeft(rest, m', fuel);
      }
    }
  }

  predicate JumpsAt(jumps: map<nat, nat>, k: nat, nodes: seq<Node>) {
    forall p | p in JumpsOf(nodes, k) :: p in jumps && jumps[p] == JumpsOf(nodes, k)[p]
  }

  lemma JumpsAtCons(jumps: map<nat, nat>, k: nat, nodes: seq<Node>)
    requires JumpsAt(jumps, k, nodes) && nodes != []
    ensures nodes[0].Cmd? ==> JumpsAt(jumps, k + 1, nodes[1..])
    ensures nodes[0].Block? ==>
      (var j := k + 1 + |Flat(nodes[0].body)|;
       && k in jumps && jumps[k] == j && j in jumps && jumps[j] == k
       && JumpsAt(jumps, k + 1, nodes[0].body) && JumpsAt(jumps, j + 1, nodes[1..]))
  {
    if nodes[0].Block? {
      var body := nodes[0].body;
      var j := k + 1 + |Flat(body)|;
      JumpsInside(body, k + 1);
      JumpsInside(nodes[1..], j + 1);
      var all, inner, rest := JumpsOf(nodes, k), JumpsOf(body, k + 1), JumpsOf(nodes[1..], j + 1);
      assert all == inner[k := j][j := k] + rest;
      assert k in all && all[k] == j && j in all && all[j] == k;
      assert forall p | p in inner :: p in all && all[p] == inner[p];
      assert forall p | p in rest :: p in all && all[p] == rest[p];
    }
  }

  // ---------------------------------------------------------------- the two interpreters

  predicate Placed(code: seq<char>, jumps: map<nat, nat>, k: nat, nodes: seq<Node>) {
    At(code, k, nodes) && AllPlain(nodes) && JumpsAt(jumps, k, nodes)
  }

  lemma PlacedCons(code: seq<char>, jumps: map<nat, nat>, k: nat, nodes: seq<Node>)
    requires Placed(code, jumps, k, nodes) && nodes != []
    ensures nodes[0].Cmd? ==>
      (k < |code| && code[k] == nodes[0].c && Plain(nodes[0].c) && Placed(code, jumps, k + 1, nodes[1..])
       && |Flat(nodes)| == 1 + |Flat(nodes[1..])| && Ops(nodes) == OpOf(nodes[0].c) + Ops(nodes[1..]))
    ensures nodes[0].Block? ==>
      (var j := k + 1 + |Flat(nodes[0].body)|;
       && Pair(code, jumps, k, j)
       && Placed(code, jumps, k + 1, nodes[0].body) && Placed(code, jumps, j + 1, nodes[1..])
       && k + |Flat(nodes)| == j + 1 + |Flat(nodes[1..])|
       && Ops(nodes) == [Loop(Ops(nodes[0].body))] + Ops(nodes[1..]))
  {
    hide At, JumpsAt, Flat;
    AtCons(code, k, nodes);
    JumpsAtCons(jumps, k, nodes);
  }

  // n steps of the table run lead from (pc, m) to (pc', m').
  ghost predicate Steps(code: seq<char>, jumps: map<nat, nat>, pc: nat, m: Machine, n: nat, pc': nat, m': Machine) {
    forall f: nat {:trigger Run(code, jumps, pc', m', f)} ::
      Run(code, jumps, pc, m, n + f) == Run(code, jumps, pc', m', f)
  }

  lemma StepsTrans(code: seq<char>, jumps: map<nat, nat>, pc: nat, m: Machine, a: nat, pc1: nat, m1: Machine, b: nat,
                   pc2: nat, m2: Machine)
    requires Steps(code, jumps, pc, m, a, pc1, m1) && Steps(code, jumps, pc1, m1, b, pc2, m2)
    ensures Steps(code, jumps, pc, m, a + b, pc2, m2)
  {
    forall f: nat ensures Run(code, jumps, pc, m, a + b + f) == Run(code, jumps, pc2, m2, f) {
      assert Run(code, jumps, pc1, m1, b + f) == Run(code, jumps, pc2, m2, f);
    }
  }

  lemma CommandStep(code: seq<char>, jumps: map<nat, nat>, pc: nat, m: Machine)
    requires pc < |code| && Good(m) && !Jumps(code[pc], m)
    ensures Steps(code, jumps, pc, m, 1, pc + 1, Act(code[pc], m))
  {
  }

  // The two brackets of a block.
  predicate Pair(code: seq<char>, jumps: map<nat, nat>, k: nat, j: nat) {
    k < j < |code| && code[k] == '[' && code[j] == ']' && k in jumps && jumps[k] == j && j in jumps && jumps[j] == k
  }

  // Both do the same: into the body when the cell is not 0, past the block when it is.
  lemma BracketStep(code: seq<char>, jumps: map<nat, nat>, k: nat, j: nat, q: nat, m: Machine)
    requires Pair(code, jumps, k, j) && (q == k || q == j) && Good(m)
    ensures forall f: nat | f > 0 ::
      Run(code, jumps, q, m, f) == Run(code, jumps, if Cell(m) == 0 then j + 1 else k + 1, m, f - 1)
    ensures Run(code, jumps, q, m, 0) == OutOfFuel
    ensures Steps(code, jumps, q, m, 1, if Cell(m) == 0 then j + 1 else k + 1, m)
  {
    hide Run;
    BracketRun(code, jumps, k, j, q, m, 0);
    forall f: nat | f > 0
      ensures Run(code, jumps, q, m, f) == Run(code, jumps, if Cell(m) == 0 then j + 1 else k + 1, m, f - 1) {
      BracketRun(code, jumps, k, j, q, m, f);
    }
  }

  lemma BracketRun(code: seq<char>, jumps: map<nat, nat>, k: nat, j: nat, q: nat, m: Machine, f: nat)
    requires Pair(code, jumps, k, j) && (q == k || q == j) && Good(m)
    ensures Run(code, jumps, q, m, f)
         == if f == 0 then OutOfFuel else Run(code, jumps, if Cell(m) == 0 then j + 1 else k + 1, m, f - 1)
  {
  }

  // So a run from the opening bracket is also one from the closing bracket.
  lemma FromClosing(code: seq<char>, jumps: map<nat, nat>, k: nat, j: nat, m: Machine, n: nat, pc': nat, m': Machine)
    requires Pair(code, jumps, k, j) && Good(m) && n > 0
    requires Steps(code, jumps, k, m, n, pc', m')
    ensures Steps(code, jumps, j, m, n, pc', m')
  {
    BracketStep(code, jumps, k, j, k, m);
    BracketStep(code, jumps, k, j, j, m);
    forall f: nat ensures Run(code, jumps, j, m, n + f) == Run(code, jumps, pc', m', f) {
      assert Run(code, jumps, k, m, n + f) == Run(code, jumps, pc', m', f);
    }
  }

  /** What the tree run does, the table run does in some number of steps. */
  lemma {:induction false} TreeToTable(code: seq<char>, jumps: map<nat, nat>, k: nat, nodes: seq<Node>, m: Machine,
                                       fuel: nat)
    returns (n: nat)
    requires Placed(code, jumps, k, nodes) && Good(m)
    requires Exec(Ops(nodes), m, fuel).Done? && !Exec(Ops(nodes), m, fuel).m.left
    ensures Good(Exec(Ops(nodes), m, fuel).m) && (nodes != [] ==> n > 0)
    ensures Steps(code, jumps, k, m, n, k + |Flat(nodes)|, Exec(Ops(nodes), m, fuel).m)
    decreases fuel, nodes
  {
    hide Placed, Act, Jumps, Run, Steps, Flat, Exec, Pair;
    n := 0;
    if nodes == [] {
      Nothing(code, jumps, k, m, fuel);
    } else {
      PlacedCons(code, jumps, k, nodes);
      var rest, m' := Ops(nodes[1..]), Exec(Ops(nodes), m, fuel).m;
      match nodes[0]
      case Cmd(c) =>
        CommandAgrees(c, m, rest, fuel);
        n := TreeToTable(code, jumps, k + 1, nodes[1..], Act(c, m), fuel);
        CommandStep(code, jumps, k, m);
        StepsTrans(code, jumps, k, m, 1, k + 1, Act(c, m), n, k + |Flat(nodes)|, m');
        n := 1 + n;
      case Block(body) =>
        var j := k + 1 + |Flat(body)|;
        LoopOps(Ops(body), rest, m, fuel);
        BracketStep(code, jumps, k, j, k, m);
        if Cell(m) == 0 {
          n := TreeToTable(code, jumps, j + 1, nodes[1..], m, fuel);
          StepsTrans(code, jumps, k, m, 1, j + 1, m, n, k + |Flat(nodes)|, m');
          n := 1 + n;
        } else {
          var m1 := Exec(Ops(body), m, fuel - 1).m;
          if m1.left {
            ExecLeft(Ops(nodes), m1, fuel - 1);
          }
          var a := TreeToTable(code, jumps, k + 1, body, m, fuel - 1);
          var b := TreeToTable(code, jumps, k, nodes, m1, fuel - 1);
          FromClosing(code, jumps, k, j, m1, b, k + |Flat(nodes)|, m');
          StepsTrans(code, jumps, k + 1, m, a, j, m1, b, k + |Flat(nodes)|, m');
          StepsTrans(code, jumps, k, m, 1, k + 1, m, a + b, k + |Flat(nodes)|, m');
          n := 1 + (a + b);
        }
    }
  }

  lemma Nothing(code: seq<char>, jumps: map<nat, nat>, k: nat, m: Machine, fuel: nat)
    ensures Flat([]) == [] && Ops([]) == [] && Exec([], m, fuel) == Done(m) && Steps(code, jumps, k, m, 0, k, m)
  {
  }

  // Unfolding a loop at the front of a list.
  lemma LoopOps(body: seq<Op>, rest: seq<Op>, m: Machine, fuel: nat)
    requires Good(m)
    ensures var ops := [Loop(body)] + rest;
      && (Cell(m) == 0 ==> Exec(ops, m, fuel) == Exec(rest, m, fuel))
      && (Cell(m) != 0 && fuel > 0 ==>
            Exec(ops, m, fuel)
            == match Exec(body, m, fuel - 1) case Done(m') => Exec(ops, m', fuel - 1) case other => other)
      && (Cell(m) != 0 && fuel == 0 ==> Exec(ops, m, fuel) == OutOfFuel)
  {
    var ops := [Loop(body)] + rest;
    assert ops[0] == Loop(body) && ops[1..] == rest;
  }

  /** What the table run does, the tree run does with some fuel: a run that ends has
      passed the end of the nodes on its way. */
  lemma {:induction false} TableToTree(code: seq<char>, jumps: map<nat, nat>, k: nat, nodes: seq<Node>, m: Machine,
                                       n: nat)
    returns (fuel: nat, n': nat)
    requires Placed(code, jumps, k, nodes) && Good(m)
    requires Run(code, jumps, k, m, n).Done? && !Run(code, jumps, k, m, n).m.left
    ensures n' <= n && Exec(Ops(nodes), m, fuel).Done? && Good(Exec(Ops(nodes), m, fuel).m)
    ensures Run(code, jumps, k + |Flat(nodes)|, Exec(Ops(nodes), m, fuel).m, n') == Run(code, jumps, k, m, n)
    decreases n, nodes
  {
    hide Placed, Act, Jumps, Run, Steps, Flat, Exec, Pair;
    fuel, n' := 0, n;
    if nodes == [] {
      Nothing(code, jumps, k, m, fuel);
    } else {
      PlacedCons(code, jumps, k, nodes);
      var rest := Ops(nodes[1..]);
      match nodes[0]
      case Cmd(c) =>
        NotAtEnd(code, jumps, k, m, n);
        CommandAgrees(c, m, rest, 0);
        CommandRun(code, jumps, k, m, n);
        if Act(c, m).left {
          RunLeft(code, jumps, k + 1, Act(c, m), n - 1);
        }
        fuel, n' := TableToTree(code, jumps, k + 1, nodes[1..], Act(c, m), n - 1);
        CommandAgrees(c, m, rest, fuel);
      case Block(body) =>
        var j := k + 1 + |Flat(body)|;
        BracketStep(code, jumps, k, j, k, m);
        if Cell(m) == 0 {
          fuel, n' := TableToTree(code, jumps, j + 1, nodes[1..], m, n - 1);
          LoopOps(Ops(body), rest, m, fuel);
        } else {
          var f1, n1 := TableToTree(code, jumps, k + 1, body, m, n - 1);
          var m1 := Exec(Ops(body), m, f1).m;
          BracketStep(code, jumps, k, j, k, m1);
          BracketStep(code, jumps, k, j, j, m1);
          assert Run(code, jumps, k, m1, n1) == Run(code, jumps, j, m1, n1);
          var f2;
          f2, n' := TableToTree(code, jumps, k, nodes, m1, n1);
          var f := if f1 > f2 then f1 else f2;
          MoreFuel(Ops(body), m, f1, f);
          MoreFuel(Ops(nodes), m1, f2, f);
          fuel := f + 1;
          LoopOps(Ops(body), rest, m, fuel);
        }
    }
  }

  lemma NotAtEnd(code: seq<char>, jumps: map<nat, nat>, k: nat, m: Machine, n: nat)
    requires k < |code| && Run(code, jumps, k, m, n).Done?
    ensures n > 0
  {
  }

  lemma CommandRun(code: seq<char>, jumps: map<nat, nat>, pc: nat, m: Machine, n: nat)
    requires pc < |code| && Good(m) && !Jumps(code[pc], m) && n > 0
    ensures Run(code, jumps, pc, m, n) == Run(code, jumps, pc + 1, Act(code[pc], m), n - 1)
  {
  }

  // ---------------------------------------------------------------- whole programs

  function BracketMap(text: seq<char>): map<nat, nat> { BrainfuckBrackets.Brackets(Filter(text), |Filter(text)|).jumps }

  ghost predicate TableEnds(text: seq<char>, m: Machine) {
    exists n: nat :: Run(Filter(text), BracketMap(text), 0, BLANK, n) == Done(m)
  }

  ghost predicate TreeEnds(text: seq<char>, m: Machine) {
    exists fuel: nat :: Exec(Parse(text).0, BLANK, fuel) == Done(m)
  }

  lemma ProgramOf(text: seq<char>) returns (nodes: seq<Node>)
    requires Balanced(Filter(text), 0)
    ensures Placed(Filter(text), BracketMap(text), 0, nodes)
    ensures Flat(nodes) == Filter(text) && Parse(text).0 == Ops(nodes)
  {
    var code := Filter(text);
    ReadBalanced(code, 0);
    nodes := Read(code).0;
    assert code + [] == code && Flat(nodes) + [] == Flat(nodes);
    assert At(code, 0, nodes) by { assert code[0..|code|] == code; }
    BracketsOfFlat(code, 0, nodes);
    assert map[] + JumpsOf(nodes, 0) == JumpsOf(nodes, 0);
    ParseFlat(nodes, []);
    ParseFiltered(text);
  }

  /** For every balanced program and every run that never moves left of cell 0, the
      one interpreter ends with a tape, a head position and an output if and only if
      the other ends with the same ones. */
  lemma InterpretersAgree(text: seq<char>, m: Machine)
    requires Balanced(Filter(text), 0) && !m.left
    ensures TableEnds(text, m) <==> TreeEnds(text, m)
  {
    hide Run, Exec, Parse, Filter, BracketMap, Balanced;
    if fuel: nat :| Exec(Parse(text).0, BLANK, fuel) == Done(m) {
      TreeEndsInTable(text, fuel);
    }
    if n: nat :| Run(Filter(text), BracketMap(text), 0, BLANK, n) == Done(m) {
      TableEndsInTree(text, n);
    }
  }

  lemma TreeEndsInTable(text: seq<char>, fuel: nat)
    requires Balanced(Filter(text), 0) && Exec(Parse(text).0, BLANK, fuel).Done?
    requires !Exec(Parse(text).0, BLANK, fuel).m.left
    ensures TableEnds(text, Exec(Parse(text).0, BLANK, fuel).m)
  {
    hide Run, Exec, Parse, Filter, Flat, BracketMap, Balanced, Placed, Ops;
    var code, jumps, m := Filter(text), BracketMap(text), Exec(Parse(text).0, BLANK, fuel).m;
    var nodes := ProgramOf(text);
    var n := TreeToTable(code, jumps, 0, nodes, BLANK, fuel);
    assert Run(code, jumps, |code|, m, 0) == Done(m) by { PastTheEnd(code, jumps, m, 0); }
    assert Run(code, jumps, 0, BLANK, n + 0) == Done(m);
  }

  lemma TableEndsInTree(text: seq<char>, n: nat)
    requires Balanced(Filter(text), 0)
    requires var r := Run(Filter(text), BracketMap(text), 0, BLANK, n); r.Done? && !r.m.left
    ensures TreeEnds(text, Run(Filter(text), BracketMap(text), 0, BLANK, n).m)
  {
    hide Run, Exec, Parse, Filter, Flat, BracketMap, Balanced, Placed, Ops;
    var code, jumps := Filter(text), BracketMap(text);
    var nodes := ProgramOf(text);
    var fuel, n' := TableToTree(code, jumps, 0, nodes, BLANK, n);
    PastTheEnd(code, jumps, Exec(Ops(nodes), BLANK, fuel).m, n');
    assert Exec(Parse(text).0, BLANK, fuel) == Run(code, jumps, 0, BLANK, n);
  }

  lemma PastTheEnd(code: seq<char>, jumps: map<nat, nat>, m: Machine, n: nat)
    ensures Run(code, jumps, |code|, m, n) == Done(m)
  {
  }

  // ---------------------------------------------------------------- what programs print

  /** Output is only ever added at its end. */
  lemma {:induction false} OutputGrows(code: seq<char>, jumps: map<nat, nat>, pc: nat, m: Machine, fuel: nat)
    ensures Run(code, jumps, pc, m, fuel).Done? ==> m.out <= Run(code, jumps, pc, m, fuel).m.out
    decreases fuel
  {
    if pc < |code| && fuel > 0 && InTape(m) {
      if Jumps(code[pc], m) {
        if pc in jumps {
          OutputGrows(code, jumps, jumps[pc] + 1, m, fuel - 1);
        }
      } else {
        OutputGrows(code, jumps, pc + 1, Act(code[pc], m), fuel - 1);
      }
    }
  }

  // The number of '+' less the number of '-'.
  function Value(text: seq<char>): int {
    if text == [] then 0
    else Value(text[..|text| - 1]) + match text[|text| - 1] case '+' => 1 case '-' => -1 case _ => 0
  }

  // What stands before each '.'.
  function Outputs(text: seq<char>): seq<int> {
    if text == [] then []
    else
      var before := text[..|text| - 1];
      Outputs(before) + if text[|text| - 1] == '.' then [Value(before)] else []
  }

  /** A text of '+', '-' and '.' prints, at each '.', how many more '+' than '-' came before. */
  lemma StraightLinePrints(text: seq<char>)
    requires forall c | c in text :: c == '+' || c == '-' || c == '.'
    ensures TableEnds(text, Machine([Value(text)], 0, Outputs(text), false))
    ensures Balanced(Filter(text), 0) && TreeEnds(text, Machine([Value(text)], 0, Outputs(text), false))
  {
    hide Run, BracketMap, Filter, Balanced;
    StraightFilter(text);
    StraightRun(text, BracketMap(text), |text|);
    assert text[..|text|] == text;
    PastTheEnd(text, BracketMap(text), Machine([Value(text)], 0, Outputs(text), false), 0);
    assert Run(text, BracketMap(text), 0, BLANK, |text|) == Done(Machine([Value(text)], 0, Outputs(text), false));
    InterpretersAgree(text, Machine([Value(text)], 0, Outputs(text), false));
  }

  lemma {:induction false} StraightFilter(text: seq<char>)
    requires forall c | c in text :: c == '+' || c == '-' || c == '.'
    ensures Filter(text) == text && Balanced(text, 0)
  {
    if text != [] {
      assert text[0] in text && forall c | c in text[1..] :: c in text;
      StraightFilter(text[1..]);
      assert text == [text[0]] + text[1..];
    }
  }

  // After k steps the machine has run the first k characters.
  lemma {:induction false} StraightRun(text: seq<char>, jumps: map<nat, nat>, k: nat)
    requires (forall c | c in text :: c == '+' || c == '-' || c == '.') && k <= |text|
    ensures var m := Machine([Value(text[..k])], 0, Outputs(text[..k]), false);
      Run(text, jumps, 0, BLANK, |text|) == Run(text, jumps, k, m, |text| - k)
  {
    if k == 0 {
      assert text[..0] == [];
    } else {
      StraightRun(text, jumps, k - 1);
      assert text[..k][..k - 1] == text[..k - 1] && text[..k][k - 1] == text[k - 1];
      assert text[k - 1] in text;
      var m := Machine([Value(text[..k - 1])], 0, Outputs(text[..k - 1]), false);
      assert m.cells[0 := m.cells[0] + 1] == [m.cells[0] + 1] && m.cells[0 := m.cells[0] - 1] == [m.cells[0] - 1];
      assert Act(text[k - 1], m) == Machine([Value(text[..k])], 0, Outputs(text[..k]), false);
    }
  }

  /** A loop is skipped at 0, and runs until the cell is 0; moves reach other cells. */
  lemma LoopsAndMoves()
    ensures TableEnds("[+].", Machine([0], 0, [0], false))
    ensures TableEnds("+[-].", Machine([0], 0, [0], false))
    ensures TableEnds(">+.<.", Machine([0, 1], 0, [1, 0], false))
  {
    SkippedLoop();
    OneTurn();
    TwoCells();
  }

  lemma SkippedLoop()
    ensures TableEnds("[+].", Machine([0], 0, [0], false))
  {
    hide Run, BracketMap, Filter, BrainfuckBrackets.Brackets;
    var c, j, end := "[+].", BracketMap("[+]."), Machine([0], 0, [0], false);
    Literal(c);
    SkippedBrackets();
    assert Printed(BLANK) == end;
    PastTheEnd(c, j, end, 0);
    StepThen(c, j, 3, BLANK, end, 0, end);
    JumpThen(c, j, 0, BLANK, 1, end);
  }

  lemma SkippedBrackets()
    ensures var j := BrainfuckBrackets.Brackets("[+].", 4).jumps; 0 in j && j[0] == 2
  {
    var c := "[+].";
    assert BrainfuckBrackets.Brackets(c, 1).open == [0] && BrainfuckBrackets.Brackets(c, 2).open == [0];
  }

  // A text of commands alone.
  lemma Literal(c: seq<char>)
    requires forall x | x in c :: IsCommand(x)
    ensures Filter(c) == c && BracketMap(c) == BrainfuckBrackets.Brackets(c, |c|).jumps
  {
    AllCommands(c);
  }

  lemma {:induction false} AllCommands(c: seq<char>)
    requires forall x | x in c :: IsCommand(x)
    ensures Filter(c) == c
  {
    if c != [] {
      AllCommands(c[1..]);
      assert c == [c[0]] + c[1..];
    }
  }

  // One step that is no jump, in front of a run that ends.
  lemma StepThen(code: seq<char>, jumps: map<nat, nat>, pc: nat, m: Machine, m1: Machine, fuel: nat, end: Machine)
    requires pc < |code| && InTape(m) && !Jumps(code[pc], m) && Act(code[pc], m) == m1
    requires Run(code, jumps, pc + 1, m1, fuel) == Done(end)
    ensures Run(code, jumps, pc, m, fuel + 1) == Done(end)
  {
  }

  lemma JumpThen(code: seq<char>, jumps: map<nat, nat>, pc: nat, m: Machine, fuel: nat, end: Machine)
    requires pc < |code| && InTape(m) && Jumps(code[pc], m) && pc in jumps
    requires Run(code, jumps, jumps[pc] + 1, m, fuel) == Done(end)
    ensures Run(code, jumps, pc, m, fuel + 1) == Done(end)
  {
  }

  lemma OneTurn()
    ensures TableEnds("+[-].", Machine([0], 0, [0], false))
  {
    hide Run, BracketMap, Filter;
    var c, j := "+[-].", BracketMap("+[-].");
    Literal(c);
    var one, end := Machine([1], 0, [], false), Machine([0], 0, [0], false);
    assert Bump(BLANK, 1) == one && Bump(one, -1) == BLANK;
    PastTheEnd(c, j, end, 0);
    StepThen(c, j, 4, BLANK, end, 0, end);
    StepThen(c, j, 3, BLANK, BLANK, 1, end);
    StepThen(c, j, 2, one, BLANK, 2, end);
    StepThen(c, j, 1, one, one, 3, end);
    StepThen(c, j, 0, BLANK, one, 4, end);
  }

  lemma TwoCells()
    ensures TableEnds(">+.<.", Machine([0, 1], 0, [1, 0], false))
  {
    hide Run, BracketMap, Filter, Act, Jumps;
    var c, j := ">+.<.", BracketMap(">+.<.");
    Literal(c);
    var a, b, d := Machine([0, 0], 1, [], false), Machine([0, 1], 1, [], false), Machine([0, 1], 1, [1], false);
    var e, end := Machine([0, 1], 0, [1], false), Machine([0, 1], 0, [1, 0], false);
    TwoCellsActs(a, b, d, e, end);
    PastTheEnd(c, j, end, 0);
    StepThen(c, j, 4, e, end, 0, end);
    StepThen(c, j, 3, d, e, 1, end);
    StepThen(c, j, 2, b, d, 2, end);
    StepThen(c, j, 1, a, b, 3, end);
    StepThen(c, j, 0, BLANK, a, 4, end);
  }

  lemma TwoCellsActs(a: Machine, b: Machine, d: Machine, e: Machine, end: Machine)
    requires a == Machine([0, 0], 1, [], false) && b == Machine([0, 1], 1, [], false)
    requires d == b.(out := [1]) && e == d.(pos := 0) && end == e.(out := [1, 0])
    ensures Act('>', BLANK) == a && Act('+', a) == b && Act('.', b) == d && Act('<', d) == e && Act('.', e) == end
    ensures !Jumps('>', BLANK) && !Jumps('+', a) && !Jumps('.', b) && !Jumps('<', d) && !Jumps('.', e)
  {
    assert a.cells[1 := 1] == b.cells && [0] + [0] == a.cells && [1] + [0] == end.out;
  }

  /** To the left of cell 0 they part: after "<+" the heads are at 0 and at -1. */
  lemma LeftOfZeroTheyPart()
    ensures Balanced("<+", 0)
    ensures TableEnds("<+", Machine([1], 0, [], true)) && TreeEnds("<+", Machine([1], -1, [], true))
  {
    var t := "<+";
    assert t[1..] == "+" && "+"[1..] == "";
    assert Filter("+") == "+" && Filter(t) == t;
    assert Run(t, BracketMap(t), 0, BLANK, 2) == Done(Machine([1], 0, [], true));
    assert Parse("+").0 == [Inc(1)] && Parse(t).0 == [Move(-1), Inc(1)];
    assert [Move(-1), Inc(1)][1..] == [Inc(1)] && [Inc(1)][1..] == [];
    var m1 := MoveBy(BLANK, -1);
    assert Bump(m1, 1) == Machine([1], -1, [], true);
    assert Exec([Inc(1)], m1, 0) == Done(Bump(m1, 1));
    assert Exec(Parse(t).0, BLANK, 0) == Done(Machine([1], -1, [], true));
  }
}

/** The two programs as their classes run. */
module BrainfuckPrograms {
  import opened BrainfuckTape
  import opened BrainfuckText
  import opened BrainfuckBrackets
  import opened Brainfuck

  class Tape {
    var cells: seq<int>
    var pos: int
    var out: seq<int>
    var left: bool // a history variable

    function Abs(): Machine reads this { Machine(cells, pos, out, left) }

    constructor ()
      ensures Abs() == BLANK
    {
      cells, pos, out, left := [0], 0, [], false;
    }

    // tape[pos], with Python's negative positions.
    function At(): int reads this { if pos < 0 then |cells| + pos else pos }

    function Get(): int
      requires 0 <= At() < |cells|
      reads this
    {
      cells[At()]
    }

    method Inc(x: int)
      requires InTape(Abs())
      modifies this
      ensures Abs() == Bump(old(Abs()), x)
    {
      cells := cells[At() := cells[At()] + x];
    }

    method Step()
      modifies this
      ensures Abs() == Advance(old(Abs()))
    {
      pos := pos + 1;
      if |cells| <= pos {
        cells := cells + [0];
      }
    }

    method Back()
      modifies this
      ensures Abs() == Devance(old(Abs()))
    {
      if pos > 0 {
        pos := pos - 1;
      } else {
        left := true;
      }
    }

    // move of the second program
    method Shift(x: int)
      modifies this
      ensures Abs() == MoveBy(old(Abs()), x)
    {
      pos, left := pos + x, left || pos + x < 0;
      while pos >= |cells|
        invariant pos == old(pos) + x && out == old(out) && left == (old(left) || pos < 0)
        invariant Extended(cells, pos) == Extended(old(cells), pos)
        decreases pos - |cells|
      {
        cells := cells + [0];
      }
    }

    method Write()
      requires InTape(Abs())
      modifies this
      ensures Abs() == Printed(old(Abs()))
    {
      out := out + [Get()];
    }
  }

  /** The program with the table of brackets. */
  class TableProgram {
    var code: seq<char>
    var bracketMap: map<nat, nat>

    constructor (text: seq<char>)
      ensures code == Filter(text) && bracketMap == BracketMap(text)
    {
      code, bracketMap := [], map[];
      new;
      code, bracketMap := ReadProgram(text);
    }

    static method ReadProgram(text: seq<char>) returns (code: seq<char>, bracketMap: map<nat, nat>)
      ensures code == Filter(text) && bracketMap == BracketMap(text)
    {
      hide Filter, BrainfuckBrackets.Brackets;
      code, bracketMap := [], map[];
      var leftStack: seq<nat>, i := [], 0;
      NothingRead();
      assert text[..0] == [];
      while i < |text|
        invariant 0 <= i <= |text| && code == Filter(text[..i])
        invariant BrainfuckBrackets.Brackets(code, |code|) == Scan(bracketMap, leftStack)
      {
        var c, pc := text[i], |code|;
        FilterSnoc(text[..i], c);
        assert text[..i + 1] == text[..i] + [c];
        if IsCommand(c) {
          BracketsSnoc(code, c);
          code := code + [c];
          if c == '[' {
            leftStack := leftStack + [pc];
          } else if c == ']' && |leftStack| > 0 {
            var open := leftStack[|leftStack| - 1];
            leftStack := leftStack[..|leftStack| - 1];
            bracketMap := bracketMap[open := pc];
            bracketMap := bracketMap[pc := open];
          }
        }
        i := i + 1;
      }
      assert text[..i] == text;
    }

    /** run, with a bound on the number of steps. */
    method RunProgram(bound: nat) returns (r: Outcome)
      ensures r == Run(code, bracketMap, 0, BLANK, bound)
    {
      var pc: nat, fuel: nat := 0, bound;
      var tape := new Tape();
      while pc < |code|
        invariant Run(code, bracketMap, 0, BLANK, bound) == Run(code, bracketMap, pc, tape.Abs(), fuel)
        decreases fuel
      {
        if fuel == 0 {
          return OutOfFuel;
        }
        fuel := fuel - 1;
        if !(0 <= tape.At() < |tape.cells|) {
          return Raised;
        }
        var c := code[pc];
        if c == '+' {
          tape.Inc(1);
        } else if c == '-' {
          tape.Inc(-1);
        } else if c == '>' {
          tape.Step();
        } else if c == '<' {
          tape.Back();
        } else if (c == '[' && tape.Get() == 0) || (c == ']' && tape.Get() != 0) {
          if pc !in bracketMap {
            return Raised;
          }
          pc := bracketMap[pc];
        } else if c == '.' {
          tape.Write();
        }
        pc := pc + 1;
      }
      return Done(tape.Abs());
    }
  }

  lemma {:induction false} FilterSnoc(text: seq<char>, c: char)
    ensures Filter(text + [c]) == Filter(text) + if IsCommand(c) then [c] else []
  {
    if text == [] {
      assert [c][1..] == [] && text + [c] == [c];
    } else {
      FilterSnoc(text[1..], c);
      assert (text + [c])[1..] == text[1..] + [c];
    }
  }

  lemma {:induction false} BracketsPrefix(code: seq<char>, c: char, k: nat)
    requires k <= |code|
    ensures BrainfuckBrackets.Brackets(code + [c], k) == BrainfuckBrackets.Brackets(code, k)
  {
    if k > 0 {
      BracketsPrefix(code, c, k - 1);
    }
  }

  lemma NothingRead()
    ensures Filter([]) == [] && BrainfuckBrackets.Brackets([], 0) == Scan(map[], [])
  {
  }

  lemma BracketsSnoc(code: seq<char>, c: char)
    ensures var s, k := BrainfuckBrackets.Brackets(code, |code|), |code|;
      BrainfuckBrackets.Brackets(code + [c], k + 1) ==
        if c == '[' then s.(open := s.open + [k])
        else if c == ']' && s.open != [] then
          var left := s.open[|s.open| - 1];
          Scan(s.jumps[left := k][k := left], s.open[..|s.open| - 1])
        else s
  {
    BracketsPrefix(code, c, |code|);
  }

  // The iterator the parser's calls share.
  class Characters {
    const text: seq<char>
    var pos: nat

    ghost predicate Valid() reads this { pos <= |text| }

    constructor (t: seq<char>)
      ensures text == t && pos == 0 && Valid()
    {
      text, pos := t, 0;
    }
  }

  /** parse */
  method ParseOps(it: Characters) returns (res: seq<Op>)
    requires it.Valid()
    modifies it
    ensures it.Valid() && it.pos >= old(it.pos) && (old(it.pos) < |it.text| ==> it.pos > old(it.pos))
    ensures (res, it.text[it.pos..]) == Parse(it.text[old(it.pos)..])
    decreases |it.text| - it.pos
  {
    hide Parse;
    res := [];
    ghost var whole, start := Parse(it.text[it.pos..]), it.pos;
    assert [] + whole.0 == whole.0;
    while it.pos < |it.text|
      invariant it.Valid() && it.pos >= start && (start < |it.text| && it.pos == start ==> res == [])
      invariant whole.0 == res + Parse(it.text[it.pos..]).0 && whole.1 == Parse(it.text[it.pos..]).1
      decreases |it.text| - it.pos
    {
      var c := it.text[it.pos];
      ghost var rest := it.text[it.pos + 1..];
      assert it.text[it.pos..] == [c] + rest;
      ParseCons(c, rest);
      it.pos := it.pos + 1;
      if c == '[' {
        Regroup3(res, [Loop(Parse(rest).0)], Parse(Parse(rest).1).0);
        var body := ParseOps(it);
        res := res + [Loop(body)];
      } else if c == ']' {
        assert res + [] == res;
        return;
      } else {
        Regroup3(res, OpOf(c), Parse(rest).0);
        if c == '+' {
          res := res + [Inc(1)];
        } else if c == '-' {
          res := res + [Inc(-1)];
        } else if c == '>' {
          res := res + [Move(1)];
        } else if c == '<' {
          res := res + [Move(-1)];
        } else if c == '.' {
          res := res + [Print];
        } else {
          assert res + OpOf(c) == res;
        }
      }
    }
    assert it.text[it.pos..] == [];
    ParseCons('+', []);
    assert res + [] == res;
  }

  lemma Regroup3(a: seq<Op>, b: seq<Op>, c: seq<Op>)
    ensures a + (b + c) == a + b + c
  {
  }

  datatype Status = Finished | IndexError | OutOfSteps

  function StatusOf(o: Outcome): Status {
    match o
    case Done(_) => Finished
    case Raised => IndexError
    case OutOfFuel => OutOfSteps
  }

  /** _run, with a bound on how deep and how often loops are entered. */
  method RunOps(program: seq<Op>, tape: Tape, bound: nat) returns (status: Status)
    modifies tape
    ensures status == StatusOf(Exec(program, old(tape.Abs()), bound))
    ensures status.Finished? ==> Done(tape.Abs()) == Exec(program, old(tape.Abs()), bound)
    decreases bound, program
  {
    var i, fuel: nat := 0, bound;
    ghost var whole := Exec(program, tape.Abs(), bound);
    assert program[0..] == program;
    while i < |program|
      invariant 0 <= i <= |program| && fuel <= bound
      invariant whole == Exec(program[i..], tape.Abs(), fuel)
    {
      assert program[i..][1..] == program[i + 1..];
      var op := program[i];
      if !op.Move? && !(0 <= tape.At() < |tape.cells|) {
        return IndexError;
      }
      match op {
        case Inc(v) => tape.Inc(v);
        case Move(v) => tape.Shift(v);
        case Print => tape.Write();
        case Loop(body) =>
          while 0 <= tape.At() < |tape.cells| && tape.Get() != 0
            invariant fuel <= bound && whole == Exec(program[i..], tape.Abs(), fuel)
            decreases fuel
          {
            if fuel == 0 {
              return OutOfSteps;
            }
            fuel := fuel - 1;
            status := RunOps(body, tape, fuel);
            if !status.Finished? {
              return;
            }
          }
          if !(0 <= tape.At() < |tape.cells|) {
            return IndexError;
          }
      }
      i := i + 1;
    }
    status := Finished;
  }
}
