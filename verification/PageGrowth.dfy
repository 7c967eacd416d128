/**
 How the opened part of a registered page grows: the exact step that takes a byte back, and
 the progress of the traps, which open bytes or give a copy back, or else change nothing.
 */
module PageGrowth {
  import opened Ld
  import opened Scanner
  import opened ZoneSearch
  import opened PageMachine
  import opened PageEffects
  import opened PageMasking

  // ---------------------------------------------------------------- growth

  // A fetch registers page q anew and closes a byte of it that was open.
  predicate Covers(t: Tables, s: State, e: Event, q: nat)
    requires StateShape(s) && Enabled(t, s, e) && q in s.pages
  {
    && e.Fetch?
    && var d := FetchEffect(t, s, e.p, e.off, e.verdict, e.verdict2, q).shown;
       d.Only? && exists i | 0 <= i < PAGE :: !(d.lo <= i < d.hi) && s.pages[q].visible[i] != INVALID_OPCODE
  }

  /** Of all events but the process's own writes, those that take an open byte of a registered
      page back are exactly the fetches that register it anew and close that byte. */
  lemma StepGrowsExactly(t: Tables, s: State, e: Event, q: nat)
    requires StateShape(s) && Enabled(t, s, e) && q in s.pages && Chained(s.pages[q]) && s.pages[q].masters != []
    requires !(e.UserWrite? && e.p == q)
    ensures q in Step(t, s, e).pages
    ensures Below(s.pages[q].visible, Step(t, s, e).pages[q].visible) <==> !Covers(t, s, e, q)
  {
    hide Step, TrapReady, AfterFetch, AfterTrap, FetchEffect, TrapEffectOn, Chained, Draws, TrapStep;
    StepMakes(t, s, e, q);
    var pg := s.pages[q];
    match e
    case Mmap(_, _, _, _) =>
    case UserWrite(_, _) =>
    case Fetch(p, off, v, v2) => FetchedBytes(pg, FetchEffect(t, s, p, off, v, v2, q));
    case Trap(p, off, vma, v) =>
      TrapMakes(t, s, p, off, vma, v, q);
      TrapStepOpens(t, s, p, off, vma, v, q);
    case WriteFault(p, off, kw) => WriteFaultedOpens(pg, kw);
    case Materialise(p, off, kw) =>
    case Mprotect(p, vmWrite) =>
  }

  // Page p stays registered, no copy of it is added, and the process does not write it.
  predicate KeepsCopies(t: Tables, s: State, es: seq<Event>, p: nat)
    requires StateShape(s) && Runs(t, s, es)
    decreases |es|
  {
    && p in s.pages && s.pages[p].masters != []
    && (es != [] ==>
          var s' := Step(t, s, es[0]);
          && !(es[0].UserWrite? && es[0].p == p)
          && (p in s'.pages ==> |s'.pages[p].masters| <= |s.pages[p].masters|)
          && KeepsCopies(t, s', es[1..], p))
  }

  // Registering a page anew adds a copy of it.
  lemma CoveringAdds(t: Tables, s: State, e: Event, q: nat)
    requires StateShape(s) && Enabled(t, s, e) && q in s.pages && Covers(t, s, e, q)
    ensures q in Step(t, s, e).pages && |Step(t, s, e).pages[q].masters| == |s.pages[q].masters| + 1
  {
    hide Step, FetchEffect, AfterFetch;
    var f := FetchEffect(t, s, e.p, e.off, e.verdict, e.verdict2, q);
    StepMakes(t, s, e, q);
    FetchedBytes(s.pages[q], f);
    OnlyPushed(t, s, e.p, e.off, e.verdict, e.verdict2, q);
  }

  lemma OnlyPushed(t: Tables, s: State, p: nat, off: nat, v: bool, v2: bool, q: nat)
    requires StateShape(s) && p in s.pages && off < PAGE
    ensures var f := FetchEffect(t, s, p, off, v, v2, q); f.shown.Only? ==> f.push
  {
    hide FetchExtent, Registrable;
  }

  lemma StepGrows(t: Tables, s: State, e: Event, p: nat)
    requires StateShape(s) && Enabled(t, s, e) && p in s.pages && Chained(s.pages[p]) && s.pages[p].masters != []
    requires !(e.UserWrite? && e.p == p)
    requires p in Step(t, s, e).pages && |Step(t, s, e).pages[p].masters| <= |s.pages[p].masters|
    ensures Below(s.pages[p].visible, Step(t, s, e).pages[p].visible) && Chained(Step(t, s, e).pages[p])
  {
    hide Step, Enabled, Chained, Covers, Below;
    StepChains(t, s, e, p);
    StepGrowsExactly(t, s, e, p);
    if Covers(t, s, e, p) {
      CoveringAdds(t, s, e, p);
    }
  }

  /** While a page stays registered and no copy of it is added, it is only ever opened,
      whatever happens to its bits and to the other pages. */
  lemma {:induction false} OpenOnlyGrows(t: Tables, s: State, es: seq<Event>, p: nat)
    requires StateShape(s) && Runs(t, s, es) && KeepsCopies(t, s, es, p) && Chained(s.pages[p])
    ensures p in Final(t, s, es).pages && Below(s.pages[p].visible, Final(t, s, es).pages[p].visible)
    decreases |es|
  {
    hide Step, Enabled, Chained;
    if es != [] {
      StepGrows(t, s, es[0], p);
      OpenOnlyGrows(t, Step(t, s, es[0]), es[1..], p);
    }
  }

  // ---------------------------------------------------------------- what a handled trap does

  // The whole copy is given back, for want of a zone.
  predicate GivesBack(off: nat, z: TrapExtent) { z.WholePage? || (z.Zone? && FixedEnd(off, z.end) <= off) }

  // The copy is given back, or the zone is opened as far as it lies in the page.
  predicate Handled(pg: Page, pg': Page, off: nat, z: TrapExtent)
    requires pg.masters != [] && IsPage(pg.masters[0]) && IsPage(pg.visible) && IsPage(pg'.visible) && off < PAGE
  {
    if GivesBack(off, z) then pg'.visible == pg.masters[0] && pg'.masters == pg.masters[1..]
    else
      && z.Zone? && pg.masters[0][off] != INVALID_OPCODE && pg'.masters == pg.masters
      && forall i | 0 <= i < PAGE ::
           pg'.visible[i] == if off <= i < FixedEnd(off, z.end) then pg.masters[0][i] else pg.visible[i]
  }

  lemma TouchHandles(pg: Page, z: TrapExtent, off: nat, v: Verdicts, permit: Permit)
    requires PageShape(pg) && pg.masters != [] && IsPage(pg.masters[0]) && off < PAGE
    requires Handles(FirstTouch(z, pg.masters[0], off, v)) && (z.Zone? ==> off <= z.end)
    ensures var pg' := Permitted(Touched(pg, FirstTouch(z, pg.masters[0], off, v)), permit);
      IsPage(pg'.visible) && Handled(pg, pg', off, z)
  {
    hide AllMaskedAt, Permitted, FixedEnd, Touched, Handled;
    var touch := FirstTouch(z, pg.masters[0], off, v);
    PermittedBytes(Touched(pg, touch), permit);
    TouchedBytes(pg, touch);
    if touch.GivenBack? {
      BackHandles(pg, Permitted(Touched(pg, touch), permit), off, z);
    } else {
      ZoneHandles(pg, Permitted(Touched(pg, touch), permit), off, z);
    }
  }

  lemma TouchedBytes(pg: Page, touch: Touch)
    requires PageShape(pg) && pg.masters != [] && IsPage(pg.masters[0])
    ensures var pg', m := Touched(pg, touch), pg.masters[0];
      && (touch.GivenBack? ==> pg'.visible == m && pg'.masters == pg.masters[1..])
      && (touch.Unmasked? && touch.lo <= touch.hi <= PAGE ==>
            pg'.visible == Opened(pg.visible, m, touch.lo, touch.hi) && pg'.masters == pg.masters)
  {
    hide Opened;
  }

  lemma BackHandles(pg: Page, pg': Page, off: nat, z: TrapExtent)
    requires pg.masters != [] && IsPage(pg.masters[0]) && IsPage(pg.visible) && off < PAGE && GivesBack(off, z)
    requires pg'.visible == pg.masters[0] && pg'.masters == pg.masters[1..]
    ensures Handled(pg, pg', off, z)
  {
  }

  lemma ZoneHandles(pg: Page, pg': Page, off: nat, z: TrapExtent)
    requires pg.masters != [] && IsPage(pg.masters[0]) && IsPage(pg.visible) && off < PAGE
    requires z.Zone? && off < FixedEnd(off, z.end) && pg.masters[0][off] != INVALID_OPCODE
    requires pg'.visible == Opened(pg.visible, pg.masters[0], off, Min(FixedEnd(off, z.end), PAGE))
    requires pg'.masters == pg.masters
    ensures IsPage(pg'.visible) && Handled(pg, pg', off, z)
  {
  }

  /** What a handled trap does to its page, once that is registered: the whole latest copy is
      given back, or the zone is opened from the faulting byte on, which is no mask byte. */
  lemma TrapHandles(t: Tables, s: State, p: nat, off: nat, vma: Vma, v: Verdicts)
    requires StateShape(s) && p in s.pages && off < PAGE && TrapReady(t, s, p, off, vma)
    requires TrapStep(t, s, p, off, vma, v).handled
    ensures TrapPageUsable(s.pages[p]) && !IsAddressZero(p, off) && p in TrapStep(t, s, p, off, vma, v).state.pages
    ensures var pg, pg' := TrapPage(p, s.pages[p]), TrapStep(t, s, p, off, vma, v).state.pages[p];
      && IsPage(pg.masters[0]) && IsPage(pg.visible) && IsPage(pg'.visible)
      && Handled(pg, pg', off, TrapFinds(t, s, p, off, vma))
  {
    hide TrapStep, TrapFinds, FirstTouch, Handled, Handles, Touched, Entered, TrapReady, EntersNext, LastVma;
    TrapMakes(t, s, p, off, vma, v, p);
    var pg := TrapPage(p, s.pages[p]);
    MasterIsPage(pg);
    FindsFrom(t, s, p, off, vma);
    TouchHandles(pg, TrapFinds(t, s, p, off, vma), off, v, TrapEffectOn(t, s, p, off, vma, v, p).permit);
  }

  lemma FindsFrom(t: Tables, s: State, p: nat, off: nat, vma: Vma)
    requires StateShape(s) && p in s.pages && off < PAGE && TrapReady(t, s, p, off, vma)
    requires TrapPageUsable(s.pages[p]) && !IsAddressZero(p, off)
    ensures TrapFinds(t, s, p, off, vma).Zone? ==> off <= TrapFinds(t, s, p, off, vma).end
  {
    AfterShape(s, p, vma);
    MasterIsPage(TrapPage(p, s.pages[p]));
  }

  // ---------------------------------------------------------------- progress

  // The number of mask bytes a page shows.
  function MaskedIndices(vis: seq<byte>): set<nat> {
    set i | 0 <= i < |vis| && vis[i] == INVALID_OPCODE
  }

  function MaskedCount(vis: seq<byte>): nat { |MaskedIndices(vis)| }

  lemma SubsetCount(a: set<nat>, b: set<nat>)
    requires a <= b
    ensures |a| <= |b| && (a != b ==> |a| < |b|)
  {
    assert b == a + (b - a);
  }

  lemma {:induction false} BoundedCount(vis: seq<byte>)
    ensures MaskedCount(vis) <= |vis|
  {
    if vis != [] {
      var n := |vis| - 1;
      BoundedCount(vis[..n]);
      assert MaskedIndices(vis) <= MaskedIndices(vis[..n]) + {n};
      SubsetCount(MaskedIndices(vis), MaskedIndices(vis[..n]) + {n});
    }
  }

  // Opening a page opens fewer bytes exactly if it opens none.
  lemma BelowCount(a: seq<byte>, b: seq<byte>)
    requires Below(a, b)
    ensures MaskedCount(b) <= MaskedCount(a)
    ensures MaskedCount(b) < MaskedCount(a) <==> exists i | 0 <= i < |a| :: a[i] != b[i]
  {
    SubsetCount(MaskedIndices(b), MaskedIndices(a));
    assert forall i | 0 <= i < |a| :: (i in MaskedIndices(b) <==> b[i] == INVALID_OPCODE);
    assert forall i | 0 <= i < |a| :: (i in MaskedIndices(a) <==> a[i] == INVALID_OPCODE);
    if i :| 0 <= i < |a| && a[i] != b[i] {
      assert i in MaskedIndices(a) && i !in MaskedIndices(b);
    } else {
      assert a == b;
    }
  }

  // What is left to do on a registered page: bytes to open and copies to give back.
  function Work(s: State, p: nat): nat
    requires p in s.pages
  {
    MaskedCount(s.pages[p].visible) + |s.pages[p].masters|
  }

  /** What can be told before the trap: it gives the copy back, or there is a masked byte to
      open between the faulting one and the end of the zone. */
  predicate MovesOn(t: Tables, s: State, p: nat, off: nat, vma: Vma)
    requires StateShape(s) && p in s.pages && off < PAGE && s.pages[p].masters != []
    requires TrapReady(t, s, p, off, vma) && !IsAddressZero(p, off)
  {
    MasterIsPage(s.pages[p]);
    var pg, z := s.pages[p], TrapFinds(t, s, p, off, vma);
    || GivesBack(off, z)
    || (z.Zone?
        && exists i | off <= i < Min(FixedEnd(off, z.end), PAGE) ::
             pg.visible[i] == INVALID_OPCODE != pg.masters[0][i])
  }

  /** A handled trap makes progress exactly then, and otherwise changes no byte and no copy
      of the page, so that the trap comes back. */
  lemma WorkDropsExactly(t: Tables, s: State, p: nat, off: nat, vma: Vma, v: Verdicts)
    requires StateShape(s) && p in s.pages && off < PAGE && TrapReady(t, s, p, off, vma)
    requires s.pages[p].masters != [] && Chained(s.pages[p]) && TrapStep(t, s, p, off, vma, v).handled
    ensures !IsAddressZero(p, off)
    ensures var s' := TrapStep(t, s, p, off, vma, v).state;
      && p in s'.pages && Work(s', p) <= Work(s, p)
      && (Work(s', p) < Work(s, p) <==> MovesOn(t, s, p, off, vma))
      && (!MovesOn(t, s, p, off, vma) ==> SamePageBytes(s.pages[p], s'.pages[p]))
  {
    hide TrapStep, TrapReady, TrapFinds, Draws;
    TrapHandles(t, s, p, off, vma, v);
    var pg, pg' := s.pages[p], TrapStep(t, s, p, off, vma, v).state.pages[p];
    HandledOpens(pg, pg', off, TrapFinds(t, s, p, off, vma));
    BelowCount(pg.visible, pg'.visible);
  }

  lemma HandledOpens(pg: Page, pg': Page, off: nat, z: TrapExtent)
    requires Chained(pg) && pg.masters != [] && IsPage(pg.masters[0]) && IsPage(pg'.visible) && off < PAGE
    requires Handled(pg, pg', off, z)
    ensures Below(pg.visible, pg'.visible)
    ensures z.Zone? && !GivesBack(off, z) ==>
      ((exists i | 0 <= i < PAGE :: pg.visible[i] != pg'.visible[i]) <==>
       exists i | off <= i < Min(FixedEnd(off, z.end), PAGE) :: pg.visible[i] == INVALID_OPCODE != pg.masters[0][i])
    ensures z.Zone? && !GivesBack(off, z) && pg.visible != pg'.visible ==>
      exists i | 0 <= i < PAGE :: pg.visible[i] != pg'.visible[i]
  {
  }

  // A handled trap on page p that opens a byte or gives a copy back.
  predicate Progress(t: Tables, s: State, e: Event, p: nat)
    requires StateShape(s) && Enabled(t, s, e) && p in s.pages && s.pages[p].masters != []
  {
    && e.Trap? && e.p == p && !IsAddressZero(p, e.off)
    && TrapStep(t, s, p, e.off, e.vma, e.verdicts).handled && MovesOn(t, s, p, e.off, e.vma)
  }

  lemma StepWorks(t: Tables, s: State, e: Event, p: nat)
    requires StateShape(s) && Enabled(t, s, e) && p in s.pages && Chained(s.pages[p]) && s.pages[p].masters != []
    requires !(e.UserWrite? && e.p == p)
    requires p in Step(t, s, e).pages && |Step(t, s, e).pages[p].masters| <= |s.pages[p].masters|
    ensures Work(Step(t, s, e), p) <= Work(s, p)
    ensures Progress(t, s, e, p) ==> Work(Step(t, s, e), p) < Work(s, p)
  {
    hide TrapStep, TrapReady, FetchStep, MovesOn, Chained, Work;
    StepGrows(t, s, e, p);
    BelowCount(s.pages[p].visible, Step(t, s, e).pages[p].visible);
    GrownWork(s, Step(t, s, e), p);
    if Progress(t, s, e, p) {
      WorkDropsExactly(t, s, p, e.off, e.vma, e.verdicts);
    }
  }

  lemma GrownWork(s: State, s': State, p: nat)
    requires p in s.pages && p in s'.pages && Below(s.pages[p].visible, s'.pages[p].visible)
    requires |s'.pages[p].masters| <= |s.pages[p].masters|
    ensures Work(s', p) <= Work(s, p)
  {
    BelowCount(s.pages[p].visible, s'.pages[p].visible);
  }

  function ProgressTraps(t: Tables, s: State, es: seq<Event>, p: nat): nat
    requires StateShape(s) && Runs(t, s, es) && KeepsCopies(t, s, es, p)
    decreases |es|
  {
    if es == [] then 0
    else (if Progress(t, s, es[0], p) then 1 else 0) + ProgressTraps(t, Step(t, s, es[0]), es[1..], p)
  }

  /** Progress: while no copy of a page is added, the handled traps on it that change anything
      are paid for by bytes opened and copies given back. */
  lemma {:induction false} TrapsAreBounded(t: Tables, s: State, es: seq<Event>, p: nat)
    requires StateShape(s) && Runs(t, s, es) && KeepsCopies(t, s, es, p) && Chained(s.pages[p])
    ensures p in Final(t, s, es).pages && ProgressTraps(t, s, es, p) + Work(Final(t, s, es), p) <= Work(s, p)
    decreases |es|
  {
    hide Step, Enabled, Chained, Progress, Work;
    if es != [] {
      StepGrows(t, s, es[0], p);
      StepWorks(t, s, es[0], p);
      TrapsAreBounded(t, Step(t, s, es[0]), es[1..], p);
    }
  }

  /** So a page with one copy takes at most PAGE of them before it is registered again. */
  lemma AtMostPageTraps(t: Tables, s: State, es: seq<Event>, p: nat)
    requires StateShape(s) && Runs(t, s, es) && KeepsCopies(t, s, es, p) && Chained(s.pages[p])
    requires |s.pages[p].masters| == 1
    ensures ProgressTraps(t, s, es, p) <= PAGE
  {
    TrapsAreBounded(t, s, es, p);
    StillRegistered(t, s, es, p);
    BoundedCount(s.pages[p].visible);
  }

  lemma {:induction false} StillRegistered(t: Tables, s: State, es: seq<Event>, p: nat)
    requires StateShape(s) && Runs(t, s, es) && KeepsCopies(t, s, es, p)
    ensures p in Final(t, s, es).pages && Final(t, s, es).pages[p].masters != []
    decreases |es|
  {
    hide Step, Enabled;
    if es != [] {
      StillRegistered(t, Step(t, s, es[0]), es[1..], p);
    }
  }
}
