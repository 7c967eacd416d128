/**
 The synchronous check: the sliding search of check_function_1 and the verdict of
 run_kernel_check over the active checks.
 */
module SyncCheck {
  import opened Ld

  const PAGE: nat := 4096
  const SHELLCODE: seq<byte> := [0x57, 0x6A, 0x23, 0x58, 0x6A, 0x00, 0x6A, 0x05, 0x48, 0x89, 0xE7]
  const LENGTH: nat := 11

  // ---------------------------------------------------------------- dumb_memmem

  predicate OccursAt(hs: seq<byte>, ne: seq<byte>, p: nat) { p + |ne| <= |hs| && hs[p..p + |ne|] == ne }

  // An occurrence that starts from lo on and strictly before hi.
  ghost predicate OccursIn(hs: seq<byte>, ne: seq<byte>, lo: int, hi: int) {
    exists p: nat :: lo <= p < hi && OccursAt(hs, ne, p)
  }

  /** dumb_memmem in the size bytes from `at` on.  The last alignment, where the
      occurrence would end with the window, is never tried.  A size below zero stands for
      the unsigned one it wraps around to: it passes the first test, and the end it gives
      wraps around to before `at`. */
  method DumbMemmem(data: seq<byte>, at: nat, size: int, ne: seq<byte>) returns (found: bool)
    requires at + size <= |data|
    ensures found <==> OccursIn(data, ne, at, at + size - |ne|)
  {
    if 0 <= size < |ne| {
      return false;
    }
    var hs, end := at, at + size - |ne|;
    while hs < end
      invariant at <= hs && (hs <= end || hs == at)
      invariant forall p | at <= p < hs :: !OccursAt(data, ne, p)
    {
      if data[hs..hs + |ne|] == ne {
        assert OccursAt(data, ne, hs);
        return true;
      }
      hs := hs + 1;
    }
    return false;
  }

  // ---------------------------------------------------------------- check_function_1

  function BytesToPageEnd(end: nat): nat { (PAGE - end % PAGE) % PAGE }

  function Min(a: int, b: int): int { if a < b then a else b }

  // The last byte, relative to the start of the zone, that any window reaches.
  function Reach(size: nat, end: nat, n: nat): int { Min(n - 1 + size, size + BytesToPageEnd(end)) }

  // Window i is i .. Min(i + size, size + bytes to the page's end).
  function WindowEnd(size: nat, end: nat, i: nat): nat { Min(i + size, size + BytesToPageEnd(end)) }

  ghost predicate AnyWindow(data: seq<byte>, size: nat, end: nat, n: nat) {
    exists i: nat :: i < n && OccursIn(data, SHELLCODE, i, WindowEnd(size, end, i) - LENGTH)
  }

  /** check_function_1: 1 when the zone passes, 0 when the shellcode was found. */
  method CheckFunction1(data: seq<byte>, start: nat, end: nat, numOfSyncChecks: nat) returns (r: int)
    requires start < end ==> |data| >= Reach(end - start, end, numOfSyncChecks)
    ensures r == 0 || r == 1
    ensures end <= start ==> r == 1
    ensures start < end ==> (r == 0 <==> AnyWindow(data, end - start, end, numOfSyncChecks))
  {
    if end <= start {
      return 1;
    }
    var size: int, buffer, i := end - start, 0, 0;
    ghost var whole := end - start;
    var untilEnd := BytesToPageEnd(end);
    if end % PAGE == 0 {
      while i < numOfSyncChecks
        invariant 0 <= i == buffer <= numOfSyncChecks && size == whole - i
        invariant forall k: nat | k < i :: !OccursIn(data, SHELLCODE, k, WindowEnd(whole, end, k) - LENGTH)
      {
        var found := DumbMemmem(data, buffer, size, SHELLCODE);
        if found {
          assert OccursIn(data, SHELLCODE, i, WindowEnd(whole, end, i) - LENGTH);
          return 0;
        }
        i, buffer, size := i + 1, buffer + 1, size - 1;
      }
    } else if untilEnd >= numOfSyncChecks {
      while i < numOfSyncChecks
        invariant 0 <= i == buffer <= numOfSyncChecks
        invariant forall k: nat | k < i :: !OccursIn(data, SHELLCODE, k, WindowEnd(whole, end, k) - LENGTH)
      {
        var found := DumbMemmem(data, buffer, size, SHELLCODE);
        if found {
          assert OccursIn(data, SHELLCODE, i, WindowEnd(whole, end, i) - LENGTH);
          return 0;
        }
        i, buffer := i + 1, buffer + 1;
      }
    } else {
      while i < numOfSyncChecks
        invariant 0 <= i == buffer <= numOfSyncChecks
        invariant size == if i < untilEnd then whole else whole - (i - untilEnd)
        invariant forall k: nat | k < i :: !OccursIn(data, SHELLCODE, k, WindowEnd(whole, end, k) - LENGTH)
      {
        var found;
        if i < untilEnd {
          found := DumbMemmem(data, buffer, size, SHELLCODE);
        } else {
          found := DumbMemmem(data, buffer, size, SHELLCODE);
          size := size - 1;
        }
        if found {
          assert OccursIn(data, SHELLCODE, i, WindowEnd(whole, end, i) - LENGTH);
          return 0;
        }
        i, buffer := i + 1, buffer + 1;
      }
    }
    return 1;
  }

  // The windows find what one search of their union would.
  ghost predicate Collapses(data: seq<byte>, size: nat, end: nat, n: nat) {
    AnyWindow(data, size, end, n) <==> OccursIn(data, SHELLCODE, 0, Reach(size, end, n) - LENGTH)
  }

  /** The windows end with the zone's last page: the byte after the last one they reach is a
      page boundary, the first at or after the end of the zone, and none passes it. */
  lemma WindowsStayInPage(start: nat, end: nat, i: nat)
    requires start < end
    ensures var last := start + WindowEnd(end - start, end, i);
      && (end + BytesToPageEnd(end)) % 4096 == 0 && BytesToPageEnd(end) < 4096
      && end <= last <= end + BytesToPageEnd(end)
      && (i <= BytesToPageEnd(end) ==> last == end + i)
      && (i >= BytesToPageEnd(end) ==> last % 4096 == 0)
  {
  }

  /** For zones longer than the shellcode the windows collapse to one search: an
      occurrence that starts before the last alignment of their union. */
  lemma OneSearch(data: seq<byte>, size: nat, end: nat, n: nat)
    requires size > LENGTH && 0 < n
    ensures Collapses(data, size, end, n)
  {
    if p: nat :| 0 <= p < Reach(size, end, n) - LENGTH && OccursAt(data, SHELLCODE, p) {
      var i := if p < n then p else n - 1;
      assert OccursIn(data, SHELLCODE, i, WindowEnd(size, end, i) - LENGTH);
    }
  }

  /** That is exact: a shorter zone is never found to contain the shellcode, so the
      windows and the one search agree on every buffer if and only if the zone is
      longer than the shellcode, or the union of its windows is not. */
  lemma OneSearchExactly(size: nat, end: nat, n: nat)
    requires 0 < n
    ensures (forall data: seq<byte> :: Collapses(data, size, end, n))
      <==> size > LENGTH || Reach(size, end, n) <= LENGTH
  {
    if size > LENGTH {
      forall data: seq<byte> ensures Collapses(data, size, end, n) {
        OneSearch(data, size, end, n);
      }
    } else if Reach(size, end, n) > LENGTH {
      assert OccursAt(SHELLCODE, SHELLCODE, 0);
      assert OccursIn(SHELLCODE, SHELLCODE, 0, Reach(size, end, n) - LENGTH);
      assert !Collapses(SHELLCODE, size, end, n);
    }
  }

  // ---------------------------------------------------------------- run_kernel_check

  // What a check returns is a C int, and the totals are unsigned longs.
  type Int = r: int | -0x8000_0000 <= r < 0x8000_0000

  const WORD := 0x1_0000_0000_0000_0000

  datatype Check = Check(active: bool, result: Int)

  function Runs(checks: seq<Check>): nat {
    if checks == [] then 0 else Runs(checks[..|checks| - 1]) + if checks[|checks| - 1].active then 1 else 0
  }

  function Results(checks: seq<Check>): int {
    if checks == [] then 0
    else Results(checks[..|checks| - 1]) + if checks[|checks| - 1].active then checks[|checks| - 1].result else 0
  }

  // Every check that ran returned 1.
  predicate AllOne(checks: seq<Check>) { forall c | c in checks && c.active :: c.result == 1 }

  predicate Passes(checks: seq<Check>) { Results(checks) % WORD == Runs(checks) % WORD }

  // There are not so many checks that the totals wrap around twice.
  predicate Few(checks: seq<Check>) { |checks| < 0x1_0000_0000 }

  /** run_kernel_check over the registered checks, each with what it returns on the zone. */
  method RunKernelCheck(checks: seq<Check>) returns (r: int)
    ensures r == if Passes(checks) then 1 else 0
    ensures Few(checks) && (forall c | c in checks && c.active :: c.result <= 1) ==> (r == 1 <==> AllOne(checks))
  {
    var totalRun, totalNegative, i := 0, 0, 0;
    while i < |checks|
      invariant 0 <= i <= |checks|
      invariant totalRun == Runs(checks[..i]) % WORD && totalNegative == Results(checks[..i]) % WORD
    {
      assert checks[..i + 1][..i] == checks[..i];
      if checks[i].active {
        totalRun := (totalRun + 1) % WORD;
        totalNegative := (totalNegative + checks[i].result) % WORD;
      }
      i := i + 1;
    }
    assert checks[..i] == checks;
    if Few(checks) && forall c | c in checks && c.active :: c.result <= 1 {
      OneSided(checks, -1);
    }
    r := if totalNegative != totalRun then 0 else 1;
  }

  // Results that lie on one side of 1 add up to the number of runs only when all are 1.
  lemma OneSided(checks: seq<Check>, side: int)
    requires (side == 1 || side == -1) && Few(checks)
    requires forall c | c in checks && c.active :: side * (c.result - 1) >= 0
    ensures Passes(checks) <==> AllOne(checks)
  {
    Excess(checks, side);
  }

  lemma {:induction false} Excess(checks: seq<Check>, side: int)
    requires side == 1 || side == -1
    requires forall c | c in checks && c.active :: side * (c.result - 1) >= 0
    ensures 0 <= side * (Results(checks) - Runs(checks)) <= |checks| * 0x8000_0001
    ensures Results(checks) == Runs(checks) <==> AllOne(checks)
  {
    if checks != [] {
      var n := |checks| - 1;
      assert checks == checks[..n] + [checks[n]];
      Excess(checks[..n], side);
    }
  }

  function Copies(n: nat, result: Int): (cs: seq<Check>)
    ensures |cs| == n
  {
    seq(n, _ => Check(true, result))
  }

  lemma TotalOfOneMore(checks: seq<Check>, c: Check)
    ensures Results(checks + [c]) == Results(checks) + if c.active then c.result else 0
    ensures Runs(checks + [c]) == Runs(checks) + if c.active then 1 else 0
  {
    assert (checks + [c])[..|checks|] == checks;
  }

  lemma {:induction false} TotalOfCopies(checks: seq<Check>, n: nat, result: Int)
    ensures Results(checks + Copies(n, result)) == Results(checks) + n * result
    ensures Runs(checks + Copies(n, result)) == Runs(checks) + n
  {
    hide Results, Runs;
    if n == 0 {
      assert checks + Copies(n, result) == checks;
    } else {
      TotalOfCopies(checks, n - 1, result);
      TotalOfOneMore(checks + Copies(n - 1, result), Check(true, result));
      assert checks + Copies(n, result) == checks + Copies(n - 1, result) + [Check(true, result)];
      OneMore(n, result);
    }
  }

  lemma OneMore(n: int, r: int)
    ensures n * r == (n - 1) * r + r
  {
  }

  lemma Balance(a: int, b: int)
    ensures (b - 1) * a + (1 - a) * b == (b - 1) + (1 - a)
  {
    assert (b - 1) * a == b * a - a && (1 - a) * b == b - a * b;
  }

  // All results of the checks are among rs.
  predicate Among(checks: seq<Check>, rs: set<Int>) { forall c | c in checks && c.active :: c.result in rs }

  /** When checks may return the values rs, the verdict is right for every list of them, that
      is, it is 1 exactly if every check returned 1, if and only if no value is below 1 or
      none is above it.  Otherwise refusals and excesses can cancel out. */
  lemma VerdictRightExactly(rs: set<Int>)
    ensures (forall checks | Few(checks) && Among(checks, rs) :: Passes(checks) <==> AllOne(checks))
      <==> ((forall r | r in rs :: r >= 1) || (forall r | r in rs :: r <= 1))
  {
    if forall r | r in rs :: r >= 1 {
      forall checks | Few(checks) && Among(checks, rs) ensures Passes(checks) <==> AllOne(checks) {
        OneSided(checks, 1);
      }
    } else if forall r | r in rs :: r <= 1 {
      forall checks | Few(checks) && Among(checks, rs) ensures Passes(checks) <==> AllOne(checks) {
        OneSided(checks, -1);
      }
    } else {
      var a :| a in rs && a < 1;
      var b :| b in rs && b > 1;
      var checks := CancelOut(a, b);
      assert Few(checks) && Among(checks, rs) && Passes(checks) && !AllOne(checks);
    }
  }

  // b - 1 refusals with a and 1 - a excesses with b.
  lemma CancelOut(a: Int, b: Int) returns (checks: seq<Check>)
    requires a < 1 < b
    ensures Few(checks) && Passes(checks) && !AllOne(checks) && Among(checks, {a, b})
  {
    hide Results, Runs, Copies;
    var refusals, excesses := Copies(b - 1, a), Copies(1 - a, b);
    checks := refusals + excesses;
    NoChecks(refusals);
    TotalOfCopies([], b - 1, a);
    TotalOfCopies(refusals, 1 - a, b);
    Balance(a, b);
    CopiesAre(b - 1, a);
    CopiesAre(1 - a, b);
    assert refusals[0] in refusals && checks[0] == refusals[0];
  }

  lemma NoChecks(checks: seq<Check>)
    ensures Results([]) == 0 && Runs([]) == 0 && [] + checks == checks
  {
  }

  lemma CopiesAre(n: nat, result: Int)
    ensures |Copies(n, result)| == n && forall c | c in Copies(n, result) :: c == Check(true, result)
  {
  }

  /** With other verdicts the sum can hide a refusal: 0 and 2 pass. */
  lemma SumHidesARefusal()
    ensures var checks := [Check(true, 0), Check(true, 2)];
      Passes(checks) && exists c :: c in checks && c.active && c.result == 0
  {
    var checks := [Check(true, 0), Check(true, 2)];
    assert checks[..1] == [Check(true, 0)] && checks[..1][..0] == [];
    assert Check(true, 0) in checks;
  }
}
