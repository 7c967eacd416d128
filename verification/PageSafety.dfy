/**
 Complete mediation over every run of the masked-page machine: what a page that may execute
 can show.  Each page is followed by itself; only fetches of it and of the page before it
 need a guard.
 */
module PageSafety {
  import opened Ld
  import opened ZoneSearch
  import opened PageMachine
  import opened PageEffects
  import opened PageBits

  /** Every visible byte of the page is the mask byte or was part of a checked range. */
  ghost predicate Mediated(pg: Page) {
    forall i | 0 <= i < |pg.visible| :: pg.visible[i] == INVALID_OPCODE || (i, pg.visible[i]) in pg.checked
  }

  ghost predicate PageMediated(pg: Page) { PageShape(pg) && (pg.checkDeny ==> Mediated(pg)) }

  ghost predicate PageSafe(pg: Page) { BitsOk(pg) && PageMediated(pg) }

  // ---------------------------------------------------------------- first fetch

  predicate InCheck(check: Check, i: nat) { check.Range? && check.from <= i < check.to }

  /** What the closing leaves visible was in the checked range, or is the mask, or was checked
      before. */
  ghost predicate Harmless(pg: Page, e: Fetched) {
    e.shown.Only? ==>
      forall i | e.shown.lo <= i < e.shown.hi && i < |pg.visible| && !InCheck(e.check, i) ::
        pg.visible[i] == INVALID_OPCODE || (i, pg.visible[i]) in pg.checked
  }

  // A page is marked as checked after closing it, or checking it, or if it was.
  predicate Marks(pg: Page, e: Fetched) {
    && (e.shown.Only? ==> !e.permit.NoPermit?)
    && (e.check.Range? ==> e.check.from <= e.check.to <= PAGE)
    && (e.shown.All? ==> e.permit.NoPermit? || pg.checkDeny || e.check == Range(0, PAGE))
  }

  lemma FetchedChecked(pg: Page, e: Fetched)
    requires PageShape(pg) && Marks(pg, e)
    ensures var pg' := AfterFetch(pg, e);
      && PageShape(pg') && pg'.visible == Masked(pg.visible, e.shown)
      && pg'.checkDeny == (pg.checkDeny || !e.permit.NoPermit?)
      && (forall i | 0 <= i < PAGE ::
            (i, pg.visible[i]) in pg'.checked <==> (i, pg.visible[i]) in pg.checked || InCheck(e.check, i))
  {
    hide Masked, Permitted, Checked;
    var pg1 := if e.push then Register(pg) else pg;
    RecordedChecked(pg1, pg.visible, e.check);
    PermittedBytes(Recorded(pg1, pg.visible, e.check).(visible := Masked(pg.visible, e.shown)), e.permit);
    FetchedBytes(pg, e);
  }

  lemma RecordedChecked(pg: Page, m: seq<byte>, check: Check)
    requires IsPage(m) && (check.Range? ==> check.from <= check.to <= PAGE)
    ensures Recorded(pg, m, check).checkDeny == pg.checkDeny
    ensures forall i | 0 <= i < PAGE ::
      (i, m[i]) in Recorded(pg, m, check).checked <==> (i, m[i]) in pg.checked || InCheck(check, i)
  {
  }

  lemma FetchedMediated(pg: Page, e: Fetched)
    requires PageMediated(pg) && Marks(pg, e)
    ensures PageMediated(AfterFetch(pg, e)) <==> Harmless(pg, e)
  {
    hide AfterFetch;
    FetchedChecked(pg, e);
    var pg' := AfterFetch(pg, e);
    if Mediated(pg') && e.shown.Only? {
      forall i | e.shown.lo <= i < e.shown.hi && i < |pg.visible| && !InCheck(e.check, i)
        ensures pg.visible[i] == INVALID_OPCODE || (i, pg.visible[i]) in pg.checked {
        assert pg'.visible[i] == pg.visible[i];
      }
    }
  }

  lemma FetchMarks(t: Tables, s: State, p: nat, off: nat, v: bool, v2: bool, q: nat)
    requires StateShape(s) && p in s.pages && off < PAGE && q in s.pages
    ensures Marks(s.pages[q], FetchEffect(t, s, p, off, v, v2, q))
  {
    hide FetchExtent, Registrable, CloseEnd;
  }

  /** The guard is exact: a first fetch keeps a page mediated if and only if what it closes
      there is harmless. */
  lemma FetchStepSafe(t: Tables, s: State, p: nat, off: nat, v: bool, v2: bool, q: nat)
    requires StateShape(s) && p in s.pages && off < PAGE && q in s.pages && PageMediated(s.pages[q])
    ensures q in FetchStep(t, s, p, off, v, v2).pages
    ensures PageMediated(FetchStep(t, s, p, off, v, v2).pages[q])
      <==> Harmless(s.pages[q], FetchEffect(t, s, p, off, v, v2, q))
  {
    hide FetchStep, FetchEffect, AfterFetch, PageMediated, Harmless, Marks;
    FetchMakes(t, s, p, off, v, v2, q);
    FetchMarks(t, s, p, off, v, v2, q);
    FetchedMediated(s.pages[q], FetchEffect(t, s, p, off, v, v2, q));
  }

  // The zone of a first fetch ends in its last page.
  predicate EndsInLastPage(off: nat, n: nat, end: nat) {
    n == 2 ==> end == off || end >= PAGE
  }

  // The one way a first fetch can show unchecked bytes: a zone that spans two pages and yet
  // ends in the first.
  predicate FetchEndsInLastPage(t: Tables, s: State, p: nat, off: nat)
    requires StateShape(s) && p in s.pages && off < PAGE
  {
    var z := FetchExtent(t, s.pages[p].visible, NextOf(s, p), off);
    IsAddressZero(p, off) || s.pages[p].checkDeny || z.Undecodable? || EndsInLastPage(off, z.pages, z.end)
  }

  lemma LastPageHarmless(t: Tables, s: State, p: nat, off: nat, v: bool, v2: bool, q: nat)
    requires StateShape(s) && p in s.pages && off < PAGE && q in s.pages && FetchEndsInLastPage(t, s, p, off)
    ensures Harmless(s.pages[q], FetchEffect(t, s, p, off, v, v2, q))
  {
    hide FetchExtent, Registrable;
  }

  /** An accepted zone that ends early is harmless to its first page exactly if the rest of
      that page was masked or checked, and to the second one exactly if the same holds of the
      bytes before the offset of its end. */
  lemma EarlyEndExactly(t: Tables, s: State, p: nat, off: nat, v2: bool)
    requires StateShape(s) && p in s.pages && off < PAGE && !FetchEndsInLastPage(t, s, p, off)
    requires Registrable(s.pages[p].visible) && p + 1 in s.pages && Registrable(s.pages[p + 1].visible)
    ensures var end := FetchExtent(t, s.pages[p].visible, NextOf(s, p), off).end;
      var pg, nx := s.pages[p], s.pages[p + 1];
      && (Harmless(pg, FetchEffect(t, s, p, off, true, v2, p)) <==>
            forall i | end <= i < PAGE :: pg.visible[i] == INVALID_OPCODE || (i, pg.visible[i]) in pg.checked)
      && (Harmless(nx, FetchEffect(t, s, p, off, true, v2, p + 1)) <==>
            forall i | 0 <= i < end :: nx.visible[i] == INVALID_OPCODE || (i, nx.visible[i]) in nx.checked)
  {
    hide FetchExtent, Registrable;
  }

  // With no instruction longer than fifteen bytes no zone ends early.
  lemma ShortInstructionsGuard(t: Tables, s: State, p: nat, off: nat)
    requires TablesOk(t) && StateShape(s) && p in s.pages && off < PAGE
    requires ShortInstructions(t, s.pages[p].visible)
    requires p + 1 in s.pages ==> ShortInstructions(t, s.pages[p].visible + s.pages[p + 1].visible)
    ensures FetchEndsInLastPage(t, s, p, off)
  {
    hide FetchExtent, ShortInstructions;
    ZoneExtent(t, s.pages[p].visible, NextOf(s, p), off);
  }

  // ---------------------------------------------------------------- the other events

  // Opening bytes that were just checked keeps a page mediated.
  lemma OpenChecked(pg: Page, m: seq<byte>, lo: nat, hi: nat)
    requires PageShape(pg) && IsPage(m) && lo <= hi <= PAGE && Mediated(pg)
    ensures Mediated(Open(Checked(pg, m, lo, hi), m, lo, hi))
  {
    var pg' := Open(Checked(pg, m, lo, hi), m, lo, hi);
    forall i | 0 <= i < PAGE ensures pg'.visible[i] == INVALID_OPCODE || (i, pg'.visible[i]) in pg'.checked {
      if lo <= i < hi {
        assert pg'.visible[i] == m[i];
      }
    }
  }

  lemma TouchedMediated(pg: Page, touch: Touch)
    requires PageShape(pg)
    ensures PageShape(Touched(pg, touch)) && Touched(pg, touch).checkDeny == pg.checkDeny
    ensures Mediated(pg) ==> Mediated(Touched(pg, touch))
  {
    hide Opened;
    if pg.masters != [] {
      MasterIsPage(pg);
      var m := pg.masters[0];
      match touch
      case Untouched =>
      case Inspected(lo, hi) =>
      case Unmasked(lo, hi) =>
        if lo <= hi <= PAGE {
          OpenedShape(pg, m, lo, hi);
          if Mediated(pg) {
            OpenChecked(pg, m, lo, hi);
          }
        }
      case GivenBack => GivenBackMediated(pg, m);
    }
  }

  lemma GivenBackMediated(pg: Page, m: seq<byte>)
    requires PageShape(pg) && pg.masters != [] && m == pg.masters[0] && IsPage(m)
    ensures var pg' := Checked(pg, m, 0, PAGE).(visible := m, masters := pg.masters[1..]);
      PageShape(pg') && Mediated(pg')
  {
    var pg' := Checked(pg, m, 0, PAGE).(visible := m, masters := pg.masters[1..]);
    assert forall k | k in pg'.masters :: k in pg.masters;
    forall i | 0 <= i < PAGE ensures (i, pg'.visible[i]) in pg'.checked {
    }
  }

  lemma EnteredMediated(q: nat, pg: Page)
    requires PageShape(pg) && (q == 0 ==> Mediated(pg))
    ensures PageShape(Entered(q, pg)) && Mediated(Entered(q, pg)) && Entered(q, pg).checkDeny == pg.checkDeny
  {
  }

  lemma PermittedMediated(pg: Page, permit: Permit)
    requires PageShape(pg) && (pg.checkDeny || !permit.NoPermit? ==> Mediated(pg))
    ensures PageMediated(Permitted(pg, permit))
  {
  }

  lemma TrapMediates(t: Tables, s: State, p: nat, off: nat, vma: Vma, v: Verdicts, q: nat)
    requires StateShape(s) && p in s.pages && off < PAGE && TrapReady(t, s, p, off, vma) && !s.pages[p].exeDeny
    requires q in s.pages && PageSafe(s.pages[q])
    ensures PageMediated(AfterTrap(q, s.pages[q], TrapEffectOn(t, s, p, off, vma, v, q)))
  {
    hide FirstTouch, SecondTouch, TrapFinds, Registrable, Reaches, Touched, TrapReady, AfterOf, Mediated, Entered;
    hide Permitted, LastVma;
    var pg, e := s.pages[q], TrapEffectOn(t, s, p, off, vma, v, q);
    assert q == 0 && e.enter ==> q == p && pg.checkDeny && Mediated(pg);
    if e.enter {
      EnteredMediated(q, pg);
    }
    var pg1 := if e.enter then Entered(q, pg) else pg;
    TouchedMediated(pg1, e.touch);
    PermittedMediated(Touched(pg1, e.touch), e.permit);
  }

  lemma WriteFaultedSafe(pg: Page, kw: bool)
    requires PageSafe(pg) && pg.vmWrite
    ensures PageSafe(WriteFaulted(pg, kw))
  {
    if pg.masters != [] {
      MasterIsPage(pg);
    }
  }

  lemma OthersSafe(pg: Page, kw: bool, vmWrite: bool)
    requires PageSafe(pg)
    ensures (kw ==> pg.vmWrite) ==> PageSafe(Materialised(pg, kw))
    ensures PageSafe(Protected(pg, vmWrite))
    ensures PageMediated(Unhandled(pg, kw))
  {
  }

  // ---------------------------------------------------------------- runs

  // Where the fetch guard applies to page q.
  ghost predicate Guarded(t: Tables, s: State, e: Event, q: nat)
    requires StateShape(s) && Enabled(t, s, e) && q in s.pages
  {
    e.Fetch? ==> Harmless(s.pages[q], FetchEffect(t, s, e.p, e.off, e.verdict, e.verdict2, q))
  }

  // Fetches of other pages than q and the one before do not matter to q.
  lemma GuardedElsewhere(t: Tables, s: State, e: Event, q: nat)
    requires StateShape(s) && Enabled(t, s, e) && q in s.pages && (e.Fetch? ==> e.p != q && e.p + 1 != q)
    ensures Guarded(t, s, e, q)
  {
    hide FetchExtent, Registrable, CloseEffect;
  }

  /** An event keeps a page mediated if and only if it is no fetch outside the guard. */
  lemma StepMediates(t: Tables, s: State, e: Event, q: nat)
    requires StateShape(s) && Enabled(t, s, e) && q in s.pages && PageSafe(s.pages[q])
    ensures q in Step(t, s, e).pages && (PageMediated(Step(t, s, e).pages[q]) <==> Guarded(t, s, e, q))
  {
    hide Step, TrapReady, AfterFetch, AfterTrap, FetchEffect, TrapEffectOn, Harmless, FetchStep, Mediated;
    hide WriteFaulted, Materialised, Protected;
    StepMakes(t, s, e, q);
    match e
    case Mmap(_, _, _, _) =>
    case UserWrite(_, _) =>
    case Fetch(p, off, v, v2) =>
      FetchMakes(t, s, p, off, v, v2, q);
      FetchStepSafe(t, s, p, off, v, v2, q);
    case Trap(p, off, vma, v) => TrapMediates(t, s, p, off, vma, v, q);
    case WriteFault(p, off, kw) =>
      OthersSafe(s.pages[q], kw, false);
      if p == q {
        WriteFaultedSafe(s.pages[p], kw);
      }
    case Materialise(p, off, kw) => OthersSafe(s.pages[q], kw && p == q, false);
    case Mprotect(p, vmWrite) => OthersSafe(s.pages[q], false, vmWrite);
  }

  /** Bits and mediation together. */
  lemma StepSafe(t: Tables, s: State, e: Event, q: nat)
    requires StateShape(s) && Enabled(t, s, e) && q in s.pages && PageSafe(s.pages[q])
    ensures q in Step(t, s, e).pages
    ensures PageSafe(Step(t, s, e).pages[q]) <==> Guarded(t, s, e, q) && !Uncaught(s, e, q)
  {
    hide Step, TrapReady, PageMediated, Guarded, BitsOk, Uncaught;
    StepBits(t, s, e, q);
    StepMediates(t, s, e, q);
  }

  // Every fetch of the run that matters to page q happens under the guard.
  ghost predicate AllGuarded(t: Tables, s: State, es: seq<Event>, q: nat)
    requires StateShape(s) && Runs(t, s, es)
    decreases |es|
  {
    es != [] ==> (q in s.pages ==> Guarded(t, s, es[0], q)) && AllGuarded(t, Step(t, s, es[0]), es[1..], q)
  }

  lemma MappedSafe(bytes: seq<byte>, vmWrite: bool, kw: bool)
    requires IsPage(bytes) && (kw ==> vmWrite)
    ensures PageSafe(Mapped(bytes, vmWrite, kw))
  {
  }

  lemma {:induction false} RunSafe(t: Tables, s: State, es: seq<Event>, q: nat)
    requires StateShape(s) && Runs(t, s, es) && AllGuarded(t, s, es, q) && NeverUncaught(t, s, es, q)
    requires q in s.pages ==> PageSafe(s.pages[q])
    ensures q in Final(t, s, es).pages ==> PageSafe(Final(t, s, es).pages[q])
    decreases |es|
  {
    hide Step, TrapReady, Guarded, PageSafe, Uncaught, EventPage;
    if es != [] {
      StepMakes(t, s, es[0], q);
      if q in s.pages {
        StepSafe(t, s, es[0], q);
      } else if es[0].Mmap? && es[0].p == q {
        MappedSafe(es[0].bytes, es[0].vmWrite, es[0].kernelWrite);
      }
      RunSafe(t, Step(t, s, es[0]), es[1..], q);
    }
  }

  // A page that may execute, or is marked as checked, is not writable and shows only mask
  // bytes and bytes that run_kernel_check passed since the page's last write fault.
  ghost predicate ExecutesChecked(pg: Page) {
    && (!pg.exeDeny ==> pg.checkDeny && !pg.write)
    && (pg.checkDeny ==> !pg.write && forall i | 0 <= i < |pg.visible| ::
          pg.visible[i] == INVALID_OPCODE || (i, pg.visible[i]) in pg.checked)
  }

  /** Complete mediation.  After any run from the empty address space in which the fetches of
      page p and of the page before meet the guard, p, if it may execute, shows only mask bytes
      and bytes that run_kernel_check passed since the page's last write fault.  Page 0 also
      needs its bits. */
  lemma CompleteMediation(t: Tables, es: seq<Event>, p: nat)
    requires Runs(t, START, es) && AllGuarded(t, START, es, p) && (p > 0 || NeverUncaught(t, START, es, p))
    requires p in Final(t, START, es).pages
    ensures ExecutesChecked(Final(t, START, es).pages[p])
  {
    if p > 0 {
      OnlyPageZero(t, START, es, p);
    }
    RunSafe(t, START, es, p);
  }
}
