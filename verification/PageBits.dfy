/**
 The page-table bits over every run, whatever the searches find and whatever the checks say.
 */
module PageBits {
  import opened Ld
  import opened Scanner
  import opened ZoneSearch
  import opened PageMachine
  import opened PageEffects

  // The page-table bits of a tracked page.
  predicate BitsOk(pg: Page) {
    && (pg.write ==> pg.exeDeny)
    && (!pg.exeDeny ==> pg.checkDeny)
    && (pg.checkDeny ==> !pg.write)
    && (pg.write ==> pg.vmWrite)
    && (pg.vmWrite && pg.checkDeny ==> pg.origWrite)
    && pg.origExe
  }

  predicate AllBits(s: State) { forall q | q in s.pages :: BitsOk(s.pages[q]) }

  // At address zero the handler does not see the fault, and the kernel makes a page writable
  // that may execute or is marked as checked.
  predicate Uncaught(s: State, e: Event, q: nat)
    requires q in s.pages
  {
    && (e.WriteFault? || e.Materialise?) && e.p == q && IsAddressZero(q, e.off) && e.kernelWrite
    && (!s.pages[q].exeDeny || s.pages[q].checkDeny)
  }

  lemma FetchedBits(pg: Page, e: Fetched)
    requires BitsOk(pg) && (e.permit.PermitNext? ==> !pg.vmWrite) && !e.permit.PermitLate?
    ensures BitsOk(AfterFetch(pg, e))
  {
  }

  lemma FetchBits(t: Tables, s: State, p: nat, off: nat, v: bool, v2: bool, q: nat)
    requires StateShape(s) && p in s.pages && off < PAGE && q in s.pages && BitsOk(s.pages[q])
    ensures BitsOk(AfterFetch(s.pages[q], FetchEffect(t, s, p, off, v, v2, q)))
  {
    hide FetchExtent, Registrable, AfterFetch, BitsOk;
    FetchedBits(s.pages[q], FetchEffect(t, s, p, off, v, v2, q));
  }

  lemma TouchedBits(pg: Page, touch: Touch)
    requires PageShape(pg)
    ensures BitsOk(pg) ==> BitsOk(Touched(pg, touch))
    ensures Touched(pg, touch).checkDeny == pg.checkDeny && Touched(pg, touch).vmWrite == pg.vmWrite
  {
  }

  lemma TrapBits(t: Tables, s: State, p: nat, off: nat, vma: Vma, v: Verdicts, q: nat)
    requires StateShape(s) && p in s.pages && off < PAGE && TrapReady(t, s, p, off, vma)
    requires q in s.pages && BitsOk(s.pages[q]) && !s.pages[p].exeDeny
    ensures BitsOk(AfterTrap(q, s.pages[q], TrapEffectOn(t, s, p, off, vma, v, q)))
  {
    hide FirstTouch, SecondTouch, TrapFinds, Registrable, Reaches, Touched, TrapReady, AfterOf;
    var e := TrapEffectOn(t, s, p, off, vma, v, q);
    var pg := if e.enter then Entered(q, s.pages[q]) else s.pages[q];
    TouchedBits(pg, e.touch);
  }

  /** Every event keeps the bits of every page, but for an uncaught write at address zero. */
  lemma StepBits(t: Tables, s: State, e: Event, q: nat)
    requires StateShape(s) && Enabled(t, s, e) && q in s.pages && BitsOk(s.pages[q])
    ensures q in Step(t, s, e).pages && (BitsOk(Step(t, s, e).pages[q]) <==> !Uncaught(s, e, q))
  {
    hide Step, TrapReady, AfterFetch, AfterTrap, FetchEffect, TrapEffectOn;
    StepMakes(t, s, e, q);
    match e
    case Fetch(p, off, v, v2) => FetchBits(t, s, p, off, v, v2, q);
    case Trap(p, off, vma, v) => TrapBits(t, s, p, off, vma, v, q);
    case _ =>
  }

  predicate NeverUncaught(t: Tables, s: State, es: seq<Event>, q: nat)
    requires StateShape(s) && Runs(t, s, es)
    decreases |es|
  {
    es != [] ==> (q in s.pages ==> !Uncaught(s, es[0], q)) && NeverUncaught(t, Step(t, s, es[0]), es[1..], q)
  }

  lemma {:induction false} OnlyPageZero(t: Tables, s: State, es: seq<Event>, q: nat)
    requires StateShape(s) && Runs(t, s, es) && q > 0
    ensures NeverUncaught(t, s, es, q)
    decreases |es|
  {
    hide Step, Enabled;
    if es != [] {
      OnlyPageZero(t, Step(t, s, es[0]), es[1..], q);
    }
  }

  // The bits of a page after an event, whether it was there before or not.
  lemma NextBits(t: Tables, s: State, e: Event, q: nat)
    requires StateShape(s) && Enabled(t, s, e) && q in Step(t, s, e).pages
    requires q in s.pages ==> BitsOk(s.pages[q]) && !Uncaught(s, e, q)
    ensures BitsOk(Step(t, s, e).pages[q])
  {
    hide Step, TrapReady, EventPage;
    StepMakes(t, s, e, q);
    if q in s.pages {
      StepBits(t, s, e, q);
    }
  }

  lemma {:induction false} RunBits(t: Tables, s: State, es: seq<Event>, q: nat)
    requires StateShape(s) && Runs(t, s, es) && NeverUncaught(t, s, es, q)
    requires q in s.pages ==> BitsOk(s.pages[q])
    ensures q in Final(t, s, es).pages ==> BitsOk(Final(t, s, es).pages[q])
    decreases |es|
  {
    hide Step, Enabled, BitsOk, Uncaught;
    if es != [] {
      if q in Step(t, s, es[0]).pages {
        NextBits(t, s, es[0], q);
      }
      RunBits(t, Step(t, s, es[0]), es[1..], q);
    }
  }

  /** The page-table bits after any run: a page is never writable and executable, an executable
      page is marked as checked, and a page so marked is not writable.  Page 0 alone needs that
      no write at address zero went uncaught. */
  lemma PageTableBits(t: Tables, es: seq<Event>, p: nat)
    requires Runs(t, START, es) && p in Final(t, START, es).pages
    requires p > 0 || NeverUncaught(t, START, es, p)
    ensures var pg := Final(t, START, es).pages[p];
      && !(pg.write && !pg.exeDeny)
      && (!pg.exeDeny ==> pg.checkDeny)
      && (pg.checkDeny ==> !pg.write)
      && BitsOk(pg)
  {
    if p > 0 {
      OnlyPageZero(t, START, es, p);
    }
    RunBits(t, START, es, p);
  }

  // All pages at once.
  lemma AllPageTableBits(t: Tables, es: seq<Event>)
    requires Runs(t, START, es) && NeverUncaught(t, START, es, 0)
    ensures AllBits(Final(t, START, es))
  {
    forall p | p in Final(t, START, es).pages ensures BitsOk(Final(t, START, es).pages[p]) {
      PageTableBits(t, es, p);
    }
  }
}
