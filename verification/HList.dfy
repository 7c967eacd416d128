/**
 The hash chains of libs/hlist_lock_free.h: adders that race with compare-and-swap,
 and the list under sequential adding and deleting.
 */
module RacingAdders {
  // A node is named by a number; every adder adds one node, its own.
  datatype Ref = Null | To(node: nat)

  // A pprev field: the address of the head, or of some node's next field.
  datatype Slot = NoSlot | HeadSlot | NextSlot(node: nat)

  // Where an adder stands in hlist_add_head_atomic, with the value it read.  seen is
  // the number of nodes that were committed at the time it read it.
  datatype Pc = Loading
              | WritingNext(first: Ref, seen: nat)
              | WritingPprev(first: Ref, seen: nat)
              | WritingFirst(first: Ref, seen: nat)
              | Swapping(first: Ref, seen: nat)
              | Done

  datatype Heap = Heap(head: Ref, next: map<nat, Ref>, pprev: map<nat, Slot>, pc: map<nat, Pc>, committed: seq<nat>)

  predicate Ready(h: Heap, n: nat) { n in h.pc && !h.pc[n].Done? }

  /** One memory access of adder n. */
  function Step(h: Heap, n: nat): Heap
    requires Ready(h, n)
  {
    match h.pc[n]
    case Loading => h.(pc := h.pc[n := WritingNext(h.head, |h.committed|)])
    case WritingNext(f, k) => h.(next := h.next[n := f], pc := h.pc[n := WritingPprev(f, k)])
    case WritingPprev(f, k) => h.(pprev := h.pprev[n := HeadSlot], pc := h.pc[n := WritingFirst(f, k)])
    case WritingFirst(f, k) =>
      (if f.To? then h.(pprev := h.pprev[f.node := NextSlot(n)]) else h).(pc := h.pc[n := Swapping(f, k)])
    case Swapping(f, k) =>
      if h.head == f then h.(head := To(n), pc := h.pc[n := Done], committed := h.committed + [n])
      else h.(pc := h.pc[n := Loading])
    case Done => h
  }

  // The forward chain from r on is exactly xs.
  predicate Chain(next: map<nat, Ref>, r: Ref, xs: seq<nat>)
    decreases |xs|
  {
    if xs == [] then r == Null else r == To(xs[0]) && xs[0] in next && Chain(next, next[xs[0]], xs[1..])
  }

  function Reversed(xs: seq<nat>): (r: seq<nat>)
    ensures |r| == |xs| && forall i | 0 <= i < |xs| :: r[i] == xs[|xs| - 1 - i]
  {
    if xs == [] then [] else [xs[|xs| - 1]] + Reversed(xs[..|xs| - 1])
  }

  // What the list holds: the committed nodes, last first, in front of the initial ones.
  function Contents(h: Heap, initial: seq<nat>): seq<nat> { Reversed(h.committed) + initial }

  predicate Distinct(xs: seq<nat>) { forall i, j | 0 <= i < j < |xs| :: xs[i] != xs[j] }

  // The head at the time k nodes were committed.
  function HeadAt(h: Heap, initial: seq<nat>, k: nat): Ref
    requires k <= |h.committed|
  {
    if k > 0 then To(h.committed[k - 1]) else if initial == [] then Null else To(initial[0])
  }

  // What holds of one adder between two of its steps.
  ghost predicate AdderOk(h: Heap, initial: seq<nat>, n: nat)
    requires n in h.pc
  {
    var pc := h.pc[n];
    && n !in initial && (n in h.committed <==> pc.Done?)
    && (pc.Loading? || pc.Done? || (pc.seen <= |h.committed| && pc.first == HeadAt(h, initial, pc.seen)))
    && (pc.WritingPprev? || pc.WritingFirst? || pc.Swapping? ==> n in h.next && h.next[n] == pc.first)
  }

  ghost predicate Inv(h: Heap, initial: seq<nat>) {
    && Chain(h.next, h.head, Contents(h, initial))
    && Distinct(h.committed) && Distinct(initial)
    && (forall n | n in h.committed :: n in h.pc)
    && forall n | n in h.pc :: AdderOk(h, initial, n)
  }

  lemma {:induction false} ChainFrame(next: map<nat, Ref>, r: Ref, xs: seq<nat>, n: nat, f: Ref)
    requires Chain(next, r, xs) && n !in xs
    ensures Chain(next[n := f], r, xs)
    decreases |xs|
  {
    if xs != [] {
      ChainFrame(next, next[xs[0]], xs[1..], n, f);
    }
  }

  lemma HeadIsCurrent(h: Heap, initial: seq<nat>)
    requires Inv(h, initial)
    ensures h.head == HeadAt(h, initial, |h.committed|)
  {
  }

  lemma HeadsDiffer(h: Heap, initial: seq<nat>, k: nat)
    requires Inv(h, initial) && k <= |h.committed|
    ensures HeadAt(h, initial, k) == h.head <==> k == |h.committed|
  {
    HeadIsCurrent(h, initial);
    var c := h.committed;
    if k < |c| {
      assert c[|c| - 1] in c;
      assert k == 0 && initial != [] ==> initial[0] in initial;
    }
  }

  /** The swap succeeds if and only if no node was committed since the adder read the
      head: there is no ABA, and a failed attempt is always another adder's success. */
  lemma SwapSucceedsExactly(h: Heap, initial: seq<nat>, n: nat)
    requires Inv(h, initial) && Ready(h, n) && h.pc[n].Swapping?
    ensures Step(h, n).pc[n].Done? <==> h.pc[n].seen == |h.committed|
  {
    HeadsDiffer(h, initial, h.pc[n].seen);
  }

  // The other adders do not notice a step of n.
  lemma OthersOk(h: Heap, initial: seq<nat>, n: nat)
    requires Inv(h, initial) && Ready(h, n)
    ensures forall m | m in h.pc && m != n :: AdderOk(Step(h, n), initial, m)
  {
    hide Chain;
    forall m | m in h.pc && m != n ensures AdderOk(Step(h, n), initial, m) {
      assert AdderOk(h, initial, m);
    }
  }

  lemma StepKeepsInv(h: Heap, initial: seq<nat>, n: nat)
    requires Inv(h, initial) && Ready(h, n)
    ensures Inv(Step(h, n), initial)
  {
    OthersOk(h, initial, n);
    HeadIsCurrent(h, initial);
    assert AdderOk(h, initial, n);
    NotIn(h, initial, n);
    var h' := Step(h, n);
    match h.pc[n]
    case WritingNext(f, k) =>
      ChainFrame(h.next, h.head, Contents(h, initial), n, f);
    case Swapping(f, k) =>
      if h.head == f {
        SwapKeepsInv(h, initial, n);
      }
    case _ =>
  }

  lemma SwapKeepsInv(h: Heap, initial: seq<nat>, n: nat)
    requires Inv(h, initial) && Ready(h, n) && h.pc[n].Swapping? && h.head == h.pc[n].first
    requires forall m | m in h.pc && m != n :: AdderOk(Step(h, n), initial, m)
    ensures Inv(Step(h, n), initial)
  {
    hide Chain, HeadAt, Reversed;
    var h', xs := Step(h, n), Contents(h, initial);
    assert AdderOk(h, initial, n);
    Committed(h, initial, n);
    ChainCons(h.next, n, xs);
    assert n in h'.committed by { assert h'.committed[|h.committed|] == n; }
    assert AdderOk(h', initial, n);
    AppendDistinct(h.committed, n);
  }

  lemma ChainCons(next: map<nat, Ref>, n: nat, xs: seq<nat>)
    requires n in next && Chain(next, next[n], xs)
    ensures Chain(next, To(n), [n] + xs)
  {
    assert ([n] + xs)[1..] == xs;
  }

  lemma AppendDistinct(xs: seq<nat>, n: nat)
    requires Distinct(xs) && n !in xs
    ensures Distinct(xs + [n])
  {
  }

  lemma NotIn(h: Heap, initial: seq<nat>, n: nat)
    requires Inv(h, initial) && Ready(h, n)
    ensures n !in Contents(h, initial)
  {
    assert AdderOk(h, initial, n);
    if n in Contents(h, initial) {
      InContents(h, initial, n);
    }
  }

  lemma InContents(h: Heap, initial: seq<nat>, n: nat)
    requires n in Contents(h, initial)
    ensures n in h.committed || n in initial
  {
    var xs := Contents(h, initial);
    var i :| 0 <= i < |xs| && xs[i] == n;
    if i < |h.committed| {
      assert xs[i] == h.committed[|h.committed| - 1 - i];
    } else {
      assert xs[i] == initial[i - |h.committed|];
    }
  }

  // Any interleaving: a sequence of adders, each taking one step; an adder that is
  // done takes none.
  function Run(h: Heap, schedule: seq<nat>): Heap
    decreases |schedule|
  {
    if schedule == [] then h
    else Run(if Ready(h, schedule[0]) then Step(h, schedule[0]) else h, schedule[1..])
  }

  lemma {:induction false} RunKeepsInv(h: Heap, initial: seq<nat>, schedule: seq<nat>)
    requires Inv(h, initial)
    ensures Inv(Run(h, schedule), initial)
    decreases |schedule|
  {
    hide Step, Inv;
    if schedule != [] {
      if Ready(h, schedule[0]) {
        StepKeepsInv(h, initial, schedule[0]);
        RunKeepsInv(Step(h, schedule[0]), initial, schedule[1..]);
      } else {
        RunKeepsInv(h, initial, schedule[1..]);
      }
    }
  }

  // A list of the nodes xs, and adders none of whose nodes is in it.
  ghost predicate Start(h: Heap, initial: seq<nat>) {
    && Chain(h.next, h.head, initial) && Distinct(initial) && h.committed == []
    && (forall n | n in initial :: n !in h.pc)
    && forall n | n in h.pc :: h.pc[n] == Loading
  }

  /** Under any interleaving of any number of adders the forward chain is acyclic, and
      holds exactly the nodes whose swap succeeded, in reverse commit order, in front
      of what was there. */
  lemma ForwardChain(h: Heap, initial: seq<nat>, schedule: seq<nat>)
    requires Start(h, initial)
    ensures var h' := Run(h, schedule);
      && Chain(h'.next, h'.head, Reversed(h'.committed) + initial)
      && Distinct(Reversed(h'.committed) + initial)
      && forall n | n in h'.pc :: n in h'.committed <==> h'.pc[n].Done?
  {
    hide Run, Chain;
    assert Contents(h, initial) == initial;
    assert Inv(h, initial);
    RunKeepsInv(h, initial, schedule);
    AllDistinct(Run(h, schedule), initial);
    assert forall n | n in Run(h, schedule).pc :: AdderOk(Run(h, schedule), initial, n);
  }

  lemma AllDistinct(h: Heap, initial: seq<nat>)
    requires Inv(h, initial)
    ensures Distinct(Contents(h, initial))
  {
    hide Chain;
    var xs, c := Contents(h, initial), h.committed;
    forall i, j | 0 <= i < j < |xs| ensures xs[i] != xs[j] {
      if i < |c| {
        assert xs[i] == c[|c| - 1 - i] && xs[i] in c;
        assert AdderOk(h, initial, xs[i]);
        if j >= |c| {
          assert xs[j] == initial[j - |c|] && xs[j] in initial;
        }
      }
    }
  }

  // ---------------------------------------------------------------- back pointers

  function SlotAt(xs: seq<nat>, i: nat): (s: Slot)
    requires i < |xs|
    ensures !s.NoSlot?
  {
    if i == 0 then HeadSlot else NextSlot(xs[i - 1])
  }

  // Each back pointer of xs names the field before its node.
  predicate Linked(h: Heap, xs: seq<nat>) {
    forall i | 0 <= i < |xs| :: xs[i] in h.pprev && h.pprev[xs[i]] == SlotAt(xs, i)
  }

  // Between its reading of the head and its swap.
  predicate Midst(h: Heap, n: nat) { n in h.pc && !h.pc[n].Loading? && !h.pc[n].Done? }

  // How far adder n, alone, has brought the back pointers towards [n] + xs.
  predicate LinkedBy(h: Heap, xs: seq<nat>, n: nat)
    requires Midst(h, n)
  {
    match h.pc[n]
    case WritingFirst(_, _) => Linked(h, xs) && n in h.pprev && h.pprev[n] == HeadSlot
    case Swapping(_, _) => Linked(h, [n] + xs)
    case _ => Linked(h, xs)
  }

  // No two adders are at work at once, and the one that is will succeed.
  ghost predicate Clean(h: Heap, initial: seq<nat>) {
    && (forall n, m | Midst(h, n) && Midst(h, m) :: n == m)
    && (forall n | Midst(h, n) :: h.pc[n].seen == |h.committed| && LinkedBy(h, Contents(h, initial), n))
    && ((forall n | n in h.pc :: !Midst(h, n)) ==> Linked(h, Contents(h, initial)))
  }

  // Two adders are at work, or one whose swap must fail.
  ghost predicate Doomed(h: Heap) {
    || (exists n, m :: n != m && Midst(h, n) && Midst(h, m))
    || (exists n :: Midst(h, n) && h.pc[n].seen < |h.committed|)
  }

  // The step of n is not a swap that fails.
  predicate Succeeds(h: Heap, n: nat)
    requires Ready(h, n)
  {
    h.pc[n].Swapping? ==> h.pc[n].first == h.head
  }

  lemma DoomedStays(h: Heap, initial: seq<nat>, n: nat)
    requires Inv(h, initial) && Ready(h, n) && Succeeds(h, n) && Doomed(h)
    ensures Doomed(Step(h, n))
  {
    hide Inv;
    var h' := Step(h, n);
    if d :| Midst(h, d) && h.pc[d].seen < |h.committed| {
      if d == n && h.pc[n].Swapping? {
        SwapSucceedsExactly(h, initial, n);
      }
      assert Midst(h', d) && h'.pc[d].seen < |h'.committed|;
    } else {
      var a, b :| a != b && Midst(h, a) && Midst(h, b);
      if h.pc[n].Swapping? && (n == a || n == b) {
        var c := if n == a then b else a;
        SeenBound(h, initial, c);
        assert Midst(h', c) && h'.pc[c].seen < |h'.committed|;
      } else {
        assert Midst(h', a) && Midst(h', b);
      }
    }
  }

  lemma SeenBound(h: Heap, initial: seq<nat>, n: nat)
    requires Inv(h, initial) && Midst(h, n)
    ensures h.pc[n].seen <= |h.committed| && h.pc[n].first == HeadAt(h, initial, h.pc[n].seen)
  {
    assert AdderOk(h, initial, n);
  }

  // No adder but n is at work.
  predicate Alone(h: Heap, n: nat) { forall m | m in h.pc && m != n :: !Midst(h, m) }

  lemma AloneIsClean(h: Heap, initial: seq<nat>, n: nat)
    requires n in h.pc && Alone(h, n)
    requires Midst(h, n) ==> h.pc[n].seen == |h.committed| && LinkedBy(h, Contents(h, initial), n)
    requires !Midst(h, n) ==> Linked(h, Contents(h, initial))
    ensures Clean(h, initial)
  {
    hide Linked, LinkedBy;
    forall m, k | Midst(h, m) && Midst(h, k) ensures m == k {
      assert m == n && k == n;
    }
  }

  // Adder n starts.
  lemma StartStaysClean(h: Heap, initial: seq<nat>, n: nat)
    requires Clean(h, initial) && Ready(h, n) && h.pc[n].Loading?
    ensures Clean(Step(h, n), initial) || Doomed(Step(h, n))
  {
    hide Linked;
    var h' := Step(h, n);
    assert h'.pprev == h.pprev;
    if m :| m in h.pc && Midst(h, m) {
      assert m != n && Midst(h', m) && Midst(h', n);
    } else {
      SameLinks(h, h', Contents(h, initial));
      AloneIsClean(h', initial, n);
    }
  }

  // Adder n, alone at work, takes a step.
  lemma WorkStaysClean(h: Heap, initial: seq<nat>, n: nat)
    requires Inv(h, initial) && Clean(h, initial) && Midst(h, n) && Succeeds(h, n)
    ensures Clean(Step(h, n), initial)
  {
    hide Inv, Linked, HeadAt, Clean;
    var h', xs := Step(h, n), Contents(h, initial);
    NotIn(h, initial, n);
    SeenBound(h, initial, n);
    ContentsLead(h, initial);
    IsAlone(h, initial, n);
    assert Alone(h', n);
    match h.pc[n] {
      case WritingNext(f, k) => SameLinks(h, h', xs);
      case WritingPprev(f, k) => WriteOwn(h, h', xs, n);
      case WritingFirst(f, k) => WriteBehind(h, h', xs, n);
      case Swapping(f, k) =>
        SameLinks(h, h', [n] + xs);
        Committed(h, initial, n);
    }
    AloneIsClean(h', initial, n);
  }

  lemma IsAlone(h: Heap, initial: seq<nat>, n: nat)
    requires Clean(h, initial) && Midst(h, n)
    ensures Alone(h, n) && h.pc[n].seen == |h.committed| && LinkedBy(h, Contents(h, initial), n)
  {
  }

  // The head read is that of the contents.
  lemma ContentsLead(h: Heap, initial: seq<nat>)
    requires Inv(h, initial)
    ensures var xs := Contents(h, initial);
      Distinct(xs) && HeadAt(h, initial, |h.committed|) == if xs == [] then Null else To(xs[0])
  {
    AllDistinct(h, initial);
  }

  lemma Committed(h: Heap, initial: seq<nat>, n: nat)
    requires Ready(h, n) && h.pc[n].Swapping? && h.head == h.pc[n].first
    ensures Contents(Step(h, n), initial) == [n] + Contents(h, initial)
  {
    assert Step(h, n).committed[..|h.committed|] == h.committed;
  }

  lemma SameLinks(h: Heap, h': Heap, xs: seq<nat>)
    requires h'.pprev == h.pprev && Linked(h, xs)
    ensures Linked(h', xs)
  {
  }

  lemma WriteOwn(h: Heap, h': Heap, xs: seq<nat>, n: nat)
    requires h'.pprev == h.pprev[n := HeadSlot] && n !in xs && Linked(h, xs)
    ensures Linked(h', xs) && h'.pprev[n] == HeadSlot
  {
  }

  // The old first node now points back to n.
  lemma WriteBehind(h: Heap, h': Heap, xs: seq<nat>, n: nat)
    requires Linked(h, xs) && n !in xs && Distinct(xs) && n in h.pprev && h.pprev[n] == HeadSlot
    requires h'.pprev == if xs == [] then h.pprev else h.pprev[xs[0] := NextSlot(n)]
    ensures Linked(h', [n] + xs)
  {
    var ys := [n] + xs;
    forall i | 0 <= i < |ys| ensures ys[i] in h'.pprev && h'.pprev[ys[i]] == SlotAt(ys, i) {
      if i > 0 {
        assert ys[i] == xs[i - 1];
      }
    }
  }

  lemma StepStaysClean(h: Heap, initial: seq<nat>, n: nat)
    requires Inv(h, initial) && Clean(h, initial) && Ready(h, n) && Succeeds(h, n)
    ensures Clean(Step(h, n), initial) || Doomed(Step(h, n))
  {
    hide Step, Inv, Clean, Doomed;
    if h.pc[n].Loading? {
      StartStaysClean(h, initial, n);
    } else {
      WorkStaysClean(h, initial, n);
    }
  }

  // Every swap of the run succeeds: no node was committed since its adder read the head.
  predicate AllSucceed(h: Heap, schedule: seq<nat>)
    decreases |schedule|
  {
    schedule != [] ==>
      if Ready(h, schedule[0]) then
        && (h.pc[schedule[0]].Swapping? ==> h.pc[schedule[0]].seen == |h.committed|)
        && AllSucceed(Step(h, schedule[0]), schedule[1..])
      else AllSucceed(h, schedule[1..])
  }

  lemma {:induction false} RunStaysClean(h: Heap, initial: seq<nat>, schedule: seq<nat>)
    requires Inv(h, initial) && AllSucceed(h, schedule) && (Clean(h, initial) || Doomed(h))
    ensures Clean(Run(h, schedule), initial) || Doomed(Run(h, schedule))
    decreases |schedule|
  {
    hide Step, Inv, Clean, Doomed;
    if schedule != [] {
      var n := schedule[0];
      if Ready(h, n) {
        if h.pc[n].Swapping? {
          SeenBound(h, initial, n);
          HeadsDiffer(h, initial, h.pc[n].seen);
        }
        if Doomed(h) {
          DoomedStays(h, initial, n);
        } else {
          StepStaysClean(h, initial, n);
        }
        StepKeepsInv(h, initial, n);
        RunStaysClean(Step(h, n), initial, schedule[1..]);
      } else {
        RunStaysClean(h, initial, schedule[1..]);
      }
    }
  }

  /** When every swap of a run succeeds and all its adders come to their end, every back
      pointer of the list names the field before its node. */
  lemma BackPointersRight(h: Heap, initial: seq<nat>, schedule: seq<nat>)
    requires Start(h, initial) && Linked(h, initial) && AllSucceed(h, schedule)
    requires forall n | n in Run(h, schedule).pc :: Run(h, schedule).pc[n].Done?
    ensures Linked(Run(h, schedule), Contents(Run(h, schedule), initial))
  {
    hide Run, Chain;
    assert Contents(h, initial) == initial;
    assert Inv(h, initial) && Clean(h, initial);
    RunStaysClean(h, initial, schedule);
  }

  // One attempt of an undisturbed adder, up to its swap.
  function Attempt(h: Heap, n: nat): Heap
    requires n in h.pc
  {
    var pprev := h.pprev[n := HeadSlot];
    h.(next := h.next[n := h.head],
       pprev := if h.head.To? then pprev[h.head.node := NextSlot(n)] else pprev,
       pc := h.pc[n := Swapping(h.head, |h.committed|)])
  }

  lemma AttemptRuns(h: Heap, n: nat)
    requires n in h.pc && h.pc[n].Loading?
    ensures Run(h, [n, n, n, n]) == Attempt(h, n)
  {
    var h1 := Step(h, n);
    var h2 := Step(h1, n);
    var h3 := Step(h2, n);
    var h4 := Step(h3, n);
    assert h4.pc == Attempt(h, n).pc;
    assert [n, n, n, n][1..] == [n, n, n] && [n, n, n][1..] == [n, n] && [n, n][1..] == [n] && [n][1..] == [];
    assert Run(h4, []) == h4 && Run(h3, [n]) == h4 && Run(h2, [n, n]) == h4 && Run(h1, [n, n, n]) == h4;
  }

  function TwoAdders(): Heap {
    Heap(To(0), map[0 := Null], map[0 := HeadSlot], map[1 := Loading, 2 := Loading], [])
  }

  // Adder 1 has committed, adder 2 has touched the back pointer of 0 and failed.
  function Midway(): Heap {
    Heap(To(1), map[0 := Null, 1 := To(0), 2 := To(0)], map[0 := NextSlot(2), 1 := HeadSlot, 2 := HeadSlot],
         map[1 := Done, 2 := Loading], [1])
  }

  lemma ThreeSteps(h: Heap, a: nat, b: nat, c: nat)
    requires Ready(h, a) && Ready(Step(h, a), b) && Ready(Step(Step(h, a), b), c)
    ensures Run(h, [a, b, c]) == Step(Step(Step(h, a), b), c)
  {
    hide Step;
    assert [a, b, c][1..] == [b, c] && [b, c][1..] == [c] && [c][1..] == [];
    assert Run(Step(Step(h, a), b), [c]) == Step(Step(Step(h, a), b), c);
  }

  lemma ReachesMidway()
    ensures Run(Run(Run(TwoAdders(), [1, 1, 1, 1]), [2, 2, 2]), [1, 2, 2]) == Midway()
  {
    hide Run;
    AttemptRuns(TwoAdders(), 1);
    var h1 := Attempt(TwoAdders(), 1);
    ThreeSteps(h1, 2, 2, 2);
    var h2 := Step(Step(Step(h1, 2), 2), 2);
    ThreeSteps(h2, 1, 2, 2);
    var h3 := Step(Step(Step(h2, 1), 2), 2);
    assert h3.pprev == Midway().pprev && h3.pc == Midway().pc && h3.next == Midway().next;
  }

  lemma LeavesMidway()
    ensures var h := Run(Run(Midway(), [2, 2, 2, 2]), [2]);
      && h.committed == [1, 2] && h.next == map[0 := Null, 1 := To(0), 2 := To(1)]
      && h.pprev == map[0 := NextSlot(2), 1 := NextSlot(2), 2 := HeadSlot]
  {
    AttemptRuns(Midway(), 2);
    var h4 := Attempt(Midway(), 2);
    assert [2][1..] == [];
    assert Run(h4, [2]) == Step(h4, 2);
  }

  /** The back pointers do not survive the race.  Adders 1 and 2 push in front of node 0;
      2 reads the head before 1 commits, writes the back pointer of 0 after it, fails and
      tries again.  The chain is 2, 1, 0 while the back pointer of 0 names the next
      field of 2. */
  lemma BackPointersFail()
    ensures var h := Run(Run(Midway(), [2, 2, 2, 2]), [2]);
      && Start(TwoAdders(), [0])
      && Run(Run(Run(TwoAdders(), [1, 1, 1, 1]), [2, 2, 2]), [1, 2, 2]) == Midway()
      && h.committed == [1, 2] && h.next == map[0 := Null, 1 := To(0), 2 := To(1)]
      && h.pprev == map[0 := NextSlot(2), 1 := NextSlot(2), 2 := HeadSlot]
  {
    hide Run, Step;
    ReachesMidway();
    LeavesMidway();
    assert Chain(TwoAdders().next, Null, [0][1..]);
  }
}

module HList {
  datatype Slot = NoSlot | HeadSlot | NextSlot(node: Node)

  class Node {
    var next: Node?
    var pprev: Slot

    constructor ()
      ensures next == null && pprev == NoSlot
    {
      next, pprev := null, NoSlot;
    }
  }

  predicate Distinct(s: seq<Node>) { forall i, j | 0 <= i < j < |s| :: s[i] != s[j] }

  lemma Apart(s: seq<Node>, i: nat)
    requires Distinct(s) && i < |s|
    ensures forall k {:trigger s[k]} | 0 <= k < |s| && k != i :: s[k] != s[i]
  {
  }

  lemma StillDistinct(s: seq<Node>, i: nat)
    requires Distinct(s) && i < |s|
    ensures Distinct(Without(s, i)) && s[i] !in Without(s, i)
  {
  }

  function NextAt(nodes: seq<Node>, i: nat): Node?
    requires i < |nodes|
  {
    if i + 1 < |nodes| then nodes[i + 1] else null
  }

  function SlotAt(nodes: seq<Node>, i: nat): (s: Slot)
    requires i < |nodes|
    ensures !s.NoSlot?
  {
    if i == 0 then HeadSlot else NextSlot(nodes[i - 1])
  }

  /** One chain of a hash table, used by one thread at a time. */
  class List {
    var first: Node?
    ghost var nodes: seq<Node>

    // The chain is exactly nodes, and each back pointer names the field before its node.
    ghost predicate Valid()
      reads this, nodes
    {
      && Distinct(nodes)
      && first == (if nodes == [] then null else nodes[0])
      && (forall i {:trigger nodes[i]} | 0 <= i < |nodes| ::
            nodes[i].next == NextAt(nodes, i) && nodes[i].pprev == SlotAt(nodes, i))
    }

    constructor ()
      ensures Valid() && nodes == []
    {
      first, nodes := null, [];
    }

    /** hlist_add_head_atomic without contention: the swap succeeds at once. */
    method AddHead(n: Node)
      requires Valid() && n !in nodes
      modifies this, nodes, n
      ensures Valid() && nodes == [n] + old(nodes)
    {
      var old_first := first;
      n.next := old_first;
      n.pprev := HeadSlot;
      if old_first != null {
        old_first.pprev := NextSlot(n);
      }
      first := n;
      ghost var was := nodes;
      nodes := [n] + nodes;
      assert forall i | 0 < i < |nodes| :: nodes[i] == was[i - 1] && nodes[i] != n;
    }

    /** hlist_del_init_atomic: exactly n leaves the list; a node in no list stays as it is.
        The swap compares *n->pprev with itself. */
    method DelInit(n: Node)
      requires Valid() && (n in nodes || n.pprev.NoSlot?)
      modifies this, nodes, n
      ensures Valid()
      ensures n !in old(nodes) ==> nodes == old(nodes) && n.next == old(n.next) && n.pprev == NoSlot
      ensures n in old(nodes) ==> n !in nodes && n.next == null && n.pprev == NoSlot
      ensures forall i | 0 <= i < |old(nodes)| && old(nodes)[i] == n :: nodes == old(nodes)[..i] + old(nodes)[i + 1..]
    {
      if n.pprev.NoSlot? {
        assert forall k | 0 <= k < |nodes| :: !nodes[k].pprev.NoSlot?;
        return;
      }
      ghost var i :| 0 <= i < |nodes| && nodes[i] == n;
      Unlink(n, i);
      n.next, n.pprev := null, NoSlot;
    }

    // __hlist_del_atomic on node i of the list.
    method Unlink(n: Node, ghost i: nat)
      requires Valid() && i < |nodes| && nodes[i] == n
      modifies this, nodes
      ensures n !in nodes && nodes == Without(old(nodes), i) && Valid()
    {
      hide Distinct;
      ghost var was := nodes;
      Apart(was, i);
      if i > 0 {
        Apart(was, i - 1);
      }
      if i + 1 < |was| {
        Apart(was, i + 1);
      }
      StillDistinct(was, i);
      var next, pprev := n.next, n.pprev;
      assert next != null ==> next == was[i + 1];
      assert pprev.NextSlot? ==> i > 0 && pprev.node == was[i - 1];
      if next != null {
        next.pprev := pprev;
      }
      if pprev.HeadSlot? {
        first := next;
      } else {
        pprev.node.next := next;
      }
      Rewired(was, i, next, pprev);
    }

    // The fields after the swap are those of the list without its node i.
    ghost method Rewired(was: seq<Node>, i: nat, next: Node?, pprev: Slot)
      requires was == nodes && Distinct(was) && i < |was| && next == NextAt(was, i) && pprev == SlotAt(was, i)
      requires Distinct(Without(was, i)) && was[i] !in Without(was, i)
      requires first == (if i == 0 then next else was[0])
      requires forall k {:trigger was[k]} | 0 <= k < |was| && k != i - 1 && k != i :: was[k].next == NextAt(was, k)
      requires forall k {:trigger was[k]} | 0 <= k < |was| && k != i + 1 && k != i :: was[k].pprev == SlotAt(was, k)
      requires i > 0 ==> was[i - 1].next == next
      requires i + 1 < |was| ==> was[i + 1].pprev == pprev
      modifies this`nodes
      ensures nodes == Without(was, i) && Valid()
    {
      hide Distinct, Without;
      Links(was, i);
      nodes := Without(was, i);
      forall k | 0 <= k < |nodes|
        ensures nodes[k].next == NextAt(nodes, k) && nodes[k].pprev == SlotAt(nodes, k)
      {
        ghost var j := if k < i then k else k + 1;
        assert nodes[k] == was[j];
        assert NextAt(nodes, k) == if k + 1 == i then next else NextAt(was, j);
        assert SlotAt(nodes, k) == if k == i then pprev else SlotAt(was, j);
      }
    }
  }

  function Without(s: seq<Node>, i: nat): (r: seq<Node>)
    requires i < |s|
    ensures |r| == |s| - 1 && forall k {:trigger r[k]} | 0 <= k < |r| :: r[k] == s[if k < i then k else k + 1]
  {
    s[..i] + s[i + 1..]
  }

  // The neighbours in a list without its node i.
  lemma Links(s: seq<Node>, i: nat)
    requires i < |s|
    ensures var r := Without(s, i);
      && (forall k {:trigger NextAt(r, k)} | 0 <= k < |r| ::
            NextAt(r, k) == if k + 1 == i then NextAt(s, i) else NextAt(s, if k < i then k else k + 1))
      && (forall k {:trigger SlotAt(r, k)} | 0 <= k < |r| ::
            SlotAt(r, k) == if k == i then SlotAt(s, i) else SlotAt(s, if k < i then k else k + 1))
  {
  }
}
