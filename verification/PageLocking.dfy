/**
 When a registered page can be written: the lock that keeps its masking, the exact condition
 under which every event keeps the lock, and the masking invariant of runs in which the
 process writes whatever it can.
 */
module PageLocking {
  import opened Ld
  import opened Scanner
  import opened ZoneSearch
  import opened PageMachine
  import opened PageEffects
  import opened PageBits
  import opened PageMasking

  /** A registered page is not writable. */
  predicate Locked(pg: Page) { pg.masters != [] ==> !pg.write }

  /** The lock is what masking needs: the process can break the masking of a page with one
      write if and only if the page is registered and writable. */
  lemma LockedExactly(t: Tables, s: State, q: nat)
    requires StateShape(s) && q in s.pages && Chained(s.pages[q])
    ensures Locked(s.pages[q]) <==>
      forall bytes | Enabled(t, s, UserWrite(q, bytes)) :: Chained(Step(t, s, UserWrite(q, bytes)).pages[q])
  {
    var pg := s.pages[q];
    if !Locked(pg) {
      MasterIsPage(pg);
      var m := pg.masters[0];
      var bytes: seq<byte> := m[0 := if m[0] == 0 then 1 else 0];
      assert bytes[0] != m[0] && bytes[0] != INVALID_OPCODE;
      assert Enabled(t, s, UserWrite(q, bytes)) && !Chained(Step(t, s, UserWrite(q, bytes)).pages[q]);
    }
  }

  // What can be told before the event: that it leaves page q registered and writable.
  predicate LeavesOpen(t: Tables, s: State, e: Event, q: nat)
    requires StateShape(s) && Enabled(t, s, e) && q in s.pages
  {
    var pg := s.pages[q];
    match e
    case Mmap(_, _, _, _) => false
    case UserWrite(_, _) => false
    case Mprotect(_, _) => false
    case Fetch(p, off, v, v2) =>
      var f := FetchEffect(t, s, p, off, v, v2, q);
      pg.write && f.push && f.permit.NoPermit?
    case Trap(p, off, vma, v) =>
      var f := TrapEffectOn(t, s, p, off, vma, v, q);
      pg.write && f.enter && f.permit.NoPermit?
    case Materialise(p, _, kw) => q == p && kw && pg.masters != []
    case WriteFault(p, off, kw) =>
      q == p
      && if IsAddressZero(p, off) then kw && pg.masters != []
         else (pg.origWrite || kw) && |pg.masters| > if pg.origWrite && pg.checkDeny then 1 else 0
  }

  lemma FetchLocks(t: Tables, s: State, p: nat, off: nat, v: bool, v2: bool, q: nat)
    requires StateShape(s) && p in s.pages && off < PAGE && q in s.pages && BitsOk(s.pages[q]) && Locked(s.pages[q])
    ensures var e := FetchEffect(t, s, p, off, v, v2, q);
      Locked(AfterFetch(s.pages[q], e)) <==> !(s.pages[q].write && e.push && e.permit.NoPermit?)
  {
    hide FetchExtent, Registrable, AfterFetch;
    var pg, e := s.pages[q], FetchEffect(t, s, p, off, v, v2, q);
    FetchedBytes(pg, e);
    FetchedWrite(pg, e);
  }

  lemma FetchedWrite(pg: Page, e: Fetched)
    requires pg.write ==> pg.vmWrite
    ensures !e.permit.PermitLate? ==>
      AfterFetch(pg, e).write == (pg.write && !e.permit.PermitFirst?)
  {
    hide Masked;
  }

  lemma TrapLocks(t: Tables, s: State, p: nat, off: nat, vma: Vma, v: Verdicts, q: nat)
    requires StateShape(s) && p in s.pages && off < PAGE && TrapReady(t, s, p, off, vma) && !s.pages[p].exeDeny
    requires q in s.pages && BitsOk(s.pages[q]) && Locked(s.pages[q])
    ensures var e := TrapEffectOn(t, s, p, off, vma, v, q);
      Locked(AfterTrap(q, s.pages[q], e)) <==> !(s.pages[q].write && e.enter && e.permit.NoPermit?)
  {
    hide FirstTouch, SecondTouch, TrapFinds, Registrable, Reaches, Touched, TrapReady, AfterOf, Entered;
    var pg, e := s.pages[q], TrapEffectOn(t, s, p, off, vma, v, q);
    EnteredKeeps(q, pg);
    var pg1 := if e.enter then Entered(q, pg) else pg;
    EnteredShape(q, pg);
    TouchedWrite(pg1, e.touch);
    SecondIsUntouched(t, s, p, off, vma, v, q);
  }

  lemma TouchedWrite(pg: Page, touch: Touch)
    requires PageShape(pg)
    ensures Touched(pg, touch).write == pg.write && Touched(pg, touch).vmWrite == pg.vmWrite
    ensures pg.masters == [] ==> Touched(pg, touch) == pg
    ensures pg.masters != [] && !touch.GivenBack? ==> Touched(pg, touch).masters == pg.masters
  {
    hide Opened;
    if pg.masters != [] {
      MasterIsPage(pg);
      match touch
      case Untouched =>
      case Inspected(lo, hi) =>
      case Unmasked(lo, hi) =>
      case GivenBack =>
    }
  }

  // Only the page of the trap is given back.
  lemma SecondIsUntouched(t: Tables, s: State, p: nat, off: nat, vma: Vma, v: Verdicts, q: nat)
    requires StateShape(s) && p in s.pages && off < PAGE && TrapReady(t, s, p, off, vma) && q in s.pages
    ensures q != p ==> !TrapEffectOn(t, s, p, off, vma, v, q).touch.GivenBack?
  {
    hide FirstTouch, TrapFinds, Registrable, Reaches, TrapReady, AfterOf, Entered, LastVma;
  }

  /** An event leaves a page locked if and only if it is not one of four: a fetch that
      registers the page, writable, and is refused; a trap that enters it, writable, and does
      not come to its end; a materialisation of it with the write bit while it is registered; a
      write fault on it that gives back fewer copies than there are. */
  lemma StepLocks(t: Tables, s: State, e: Event, q: nat)
    requires StateShape(s) && Enabled(t, s, e) && q in s.pages && BitsOk(s.pages[q]) && Locked(s.pages[q])
    ensures q in Step(t, s, e).pages && (Locked(Step(t, s, e).pages[q]) <==> !LeavesOpen(t, s, e, q))
  {
    hide Step, TrapReady, AfterFetch, AfterTrap, FetchEffect, TrapEffectOn;
    StepMakes(t, s, e, q);
    match e
    case Fetch(p, off, v, v2) => FetchLocks(t, s, p, off, v, v2, q);
    case Trap(p, off, vma, v) => TrapLocks(t, s, p, off, vma, v, q);
    case _ =>
  }

  // ---------------------------------------------------------------- the masking invariant

  // No event of the run leaves page q registered and writable.
  predicate NeverLeavesOpen(t: Tables, s: State, es: seq<Event>, q: nat)
    requires StateShape(s) && Runs(t, s, es)
    decreases |es|
  {
    es != [] ==>
      (q in s.pages ==> !LeavesOpen(t, s, es[0], q)) && NeverLeavesOpen(t, Step(t, s, es[0]), es[1..], q)
  }

  // A tracked page under the discipline.
  predicate Disciplined(pg: Page) { BitsOk(pg) && Locked(pg) && Chained(pg) }

  lemma StepDisciplines(t: Tables, s: State, e: Event, q: nat)
    requires StateShape(s) && Enabled(t, s, e) && q in Step(t, s, e).pages
    requires q in s.pages ==> Disciplined(s.pages[q]) && !Uncaught(s, e, q) && !LeavesOpen(t, s, e, q)
    ensures Disciplined(Step(t, s, e).pages[q])
  {
    hide Step, TrapReady, EventPage, Chained, LeavesOpen;
    NextBits(t, s, e, q);
    NextChained(t, s, e, q);
    StepMakes(t, s, e, q);
    if q in s.pages {
      StepLocks(t, s, e, q);
    }
  }

  lemma {:induction false} RunDisciplines(t: Tables, s: State, es: seq<Event>, q: nat)
    requires StateShape(s) && Runs(t, s, es) && NeverUncaught(t, s, es, q) && NeverLeavesOpen(t, s, es, q)
    requires q in s.pages ==> Disciplined(s.pages[q])
    ensures q in Final(t, s, es).pages ==> Disciplined(Final(t, s, es).pages[q])
    decreases |es|
  {
    hide Step, Enabled, Disciplined, LeavesOpen, Uncaught;
    if es != [] {
      if q in Step(t, s, es[0]).pages {
        StepDisciplines(t, s, es[0], q);
      }
      RunDisciplines(t, Step(t, s, es[0]), es[1..], q);
    }
  }

  /** The masking invariant.  In every run in which no event leaves page p registered and
      writable, whatever the process writes and whatever becomes of the other pages, each byte
      the page shows while it is registered is the byte of its master copy or the mask. */
  lemma MaskingInvariant(t: Tables, es: seq<Event>, p: nat, i: nat)
    requires Runs(t, START, es) && NeverLeavesOpen(t, START, es, p) && (p > 0 || NeverUncaught(t, START, es, p))
    requires p in Final(t, START, es).pages && Final(t, START, es).pages[p].masters != [] && i < PAGE
    ensures var pg := Final(t, START, es).pages[p];
      && IsPage(pg.visible) && IsPage(pg.masters[0])
      && (pg.visible[i] == pg.masters[0][i] || pg.visible[i] == INVALID_OPCODE)
  {
    if p > 0 {
      OnlyPageZero(t, START, es, p);
    }
    RunDisciplines(t, START, es, p);
    MasterIsPage(Final(t, START, es).pages[p]);
  }
}
