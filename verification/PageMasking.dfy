/**
 The masking discipline of one page: what a registered page shows is its master copy with
 some bytes masked.  Which events keep it, and where the bytes of a page come from.
 */
module PageMasking {
  import opened Ld
  import opened Scanner
  import opened ZoneSearch
  import opened PageMachine
  import opened PageEffects

  /** a is b with some bytes masked. */
  predicate Below(a: seq<byte>, b: seq<byte>) {
    |a| == |b| && forall i | 0 <= i < |a| :: a[i] == b[i] || a[i] == INVALID_OPCODE
  }

  // What the page shows is below its latest copy, and each copy is below the one
  // registered before it.
  predicate Chained(pg: Page) {
    && PageShape(pg)
    && (pg.masters != [] ==> Below(pg.visible, pg.masters[0]))
    && forall k | 0 <= k < |pg.masters| - 1 :: Below(pg.masters[k], pg.masters[k + 1])
  }

  // The bytes that have a claim to place i of the page.
  function Column(pg: Page, i: nat): set<byte>
    requires PageShape(pg) && i < PAGE
  {
    {pg.visible[i], INVALID_OPCODE} + set m | m in pg.masters :: m[i]
  }

  // No byte comes to a place of the page from anywhere else.
  predicate Draws(pg: Page, pg': Page) {
    PageShape(pg) && PageShape(pg') && forall i | 0 <= i < PAGE :: Column(pg', i) <= Column(pg, i)
  }

  // The page stays a chain and, when it is registered, shows no less than before.
  predicate Opens(pg: Page, pg': Page) {
    && Draws(pg, pg')
    && (Chained(pg) ==>
          && Chained(pg')
          && (pg.masters != [] ==> Below(pg.visible, pg'.visible) && |pg'.masters| <= |pg.masters|))
  }

  // ---------------------------------------------------------------- one page

  // A page whose bytes and copies all come from pg.
  lemma DrawsFrom(pg: Page, pg': Page)
    requires PageShape(pg) && IsPage(pg'.visible) && forall m | m in pg'.masters :: m == pg.visible || m in pg.masters
    requires forall i | 0 <= i < PAGE :: pg'.visible[i] in Column(pg, i)
    ensures Draws(pg, pg')
  {
    forall i | 0 <= i < PAGE ensures Column(pg', i) <= Column(pg, i) {
      forall b | b in Column(pg', i) ensures b in Column(pg, i) {
        if b != pg'.visible[i] && b != INVALID_OPCODE {
          var m :| m in pg'.masters && m[i] == b;
        }
      }
    }
  }

  lemma RegisterOpens(pg: Page, q: nat)
    requires PageShape(pg)
    ensures Draws(pg, Register(pg)) && Draws(pg, RegisterClosed(pg)) && Draws(pg, Entered(q, pg))
    ensures Chained(pg) ==> Chained(Register(pg)) && Chained(RegisterClosed(pg)) && Chained(Entered(q, pg))
  {
    hide Draws, Chained;
    DrawsFrom(pg, Register(pg));
    DrawsFrom(pg, RegisterClosed(pg));
    if Chained(pg) {
      RegisterChained(pg, pg.visible);
      RegisterChained(pg, MaskedPage());
    }
  }

  lemma RegisterChained(pg: Page, vis: seq<byte>)
    requires Chained(pg) && Below(vis, pg.visible)
    ensures Chained(Register(pg).(visible := vis))
  {
    var ms := [pg.visible] + pg.masters;
    assert forall m | m in ms :: m == pg.visible || m in pg.masters;
    forall k | 0 <= k < |ms| - 1 ensures Below(ms[k], ms[k + 1]) {
      if k > 0 {
        assert ms[k] == pg.masters[k - 1] && ms[k + 1] == pg.masters[k - 1 + 1];
      }
    }
  }

  // Opening from the latest copy.
  lemma OpenOpens(pg: Page, lo: nat, hi: nat)
    requires PageShape(pg) && pg.masters != [] && lo <= hi <= PAGE && IsPage(pg.masters[0])
    ensures Opens(pg, Open(pg, pg.masters[0], lo, hi))
  {
    assert pg.masters[0] in pg.masters;
  }

  // Giving the latest copy back and forgetting it.
  lemma RestoreOpens(pg: Page)
    requires PageShape(pg)
    ensures Opens(pg, Restored(pg))
  {
    hide Draws, Chained;
    if pg.masters != [] {
      MasterIsPage(pg);
      assert pg.masters[0] in pg.masters && forall m | m in pg.masters[1..] :: m in pg.masters;
    }
    DrawsFrom(pg, Restored(pg));
    if Chained(pg) {
      RestoreChained(pg);
    }
  }

  lemma RestoreChained(pg: Page)
    requires Chained(pg)
    ensures Chained(Restored(pg)) && (pg.masters != [] ==> Below(pg.visible, Restored(pg).visible))
  {
    if pg.masters != [] {
      MasterIsPage(pg);
      var ms, r := pg.masters, pg.masters[1..];
      assert forall m | m in r :: m in ms;
      assert r != [] ==> Below(ms[0], ms[0 + 1]);
      forall k | 0 <= k < |r| - 1 ensures Below(r[k], r[k + 1]) {
        assert r[k] == ms[k + 1] && r[k + 1] == ms[k + 1 + 1];
      }
    }
  }

  predicate SamePageBytes(pg: Page, pg': Page) { pg'.visible == pg.visible && pg'.masters == pg.masters }

  // Neither the page-table bits nor the history matter.
  lemma SameOpens(pg: Page, pg1: Page, pg2: Page)
    requires PageShape(pg)
    ensures SamePageBytes(pg, pg1) ==> Opens(pg, pg1)
    ensures Opens(pg, pg1) && SamePageBytes(pg1, pg2) ==> Opens(pg, pg2)
    ensures SamePageBytes(pg, pg1) && Opens(pg1, pg2) ==> Opens(pg, pg2)
  {
  }

  // ---------------------------------------------------------------- what the events do

  // A first fetch draws on the page's own bytes, and keeps the chain.
  lemma FetchedChains(pg: Page, e: Fetched)
    requires PageShape(pg)
    ensures PageShape(AfterFetch(pg, e)) && Draws(pg, AfterFetch(pg, e))
    ensures Chained(pg) ==> Chained(AfterFetch(pg, e))
  {
    hide Draws, Chained, AfterFetch;
    FetchedBytes(pg, e);
    var pg', vis := AfterFetch(pg, e), Masked(pg.visible, e.shown);
    DrawsFrom(pg, pg');
    if Chained(pg) {
      if e.push {
        RegisterChained(pg, vis);
        SameChained(Register(pg).(visible := vis), pg');
      } else {
        LowerChained(pg, pg');
      }
    }
  }

  lemma SameChained(pg: Page, pg': Page)
    requires Chained(pg) && SamePageBytes(pg, pg')
    ensures Chained(pg')
  {
  }

  lemma LowerChained(pg: Page, pg': Page)
    requires Chained(pg) && Below(pg'.visible, pg.visible) && pg'.masters == pg.masters
    ensures Chained(pg')
  {
  }

  // A trap only opens the page, from its own copies.
  lemma TrappedOpens(q: nat, pg: Page, e: TrapEffect)
    requires PageShape(pg) && (e.enter ==> pg.masters == [])
    ensures Opens(pg, AfterTrap(q, pg, e))
  {
    hide Opens, Entered, Touched;
    var pg1 := if e.enter then Entered(q, pg) else pg;
    EnteredShape(q, pg);
    TouchedOpens(pg1, e.touch);
    SameOpens(pg1, Touched(pg1, e.touch), AfterTrap(q, pg, e));
    if e.enter {
      EnteredOpens(q, pg, AfterTrap(q, pg, e));
    }
  }

  lemma EnteredShape(q: nat, pg: Page)
    requires PageShape(pg)
    ensures PageShape(Entered(q, pg))
  {
  }

  lemma TouchedOpens(pg: Page, touch: Touch)
    requires PageShape(pg)
    ensures Opens(pg, Touched(pg, touch))
  {
    hide Opens, Checked, Open;
    SameOpens(pg, pg, pg);
    if pg.masters != [] {
      MasterIsPage(pg);
      var m := pg.masters[0];
      match touch
      case Untouched =>
      case Inspected(lo, hi) => InspectedOpens(pg, m, lo, hi);
      case Unmasked(lo, hi) =>
        if lo <= hi <= PAGE {
          InspectedOpens(pg, m, lo, hi);
          OpenOpens(pg, lo, hi);
          OpenSame(pg, m, lo, hi);
          SameOpens(pg, Open(pg, m, lo, hi), Open(Checked(pg, m, lo, hi), m, lo, hi));
        }
      case GivenBack =>
        RestoreOpens(pg);
        InspectedOpens(pg, m, 0, PAGE);
        SameOpens(pg, Restored(pg), Touched(pg, touch));
    }
  }

  lemma InspectedOpens(pg: Page, m: seq<byte>, lo: nat, hi: nat)
    requires PageShape(pg)
    ensures Opens(pg, Recorded(pg, m, Range(lo, hi))) && SamePageBytes(pg, Recorded(pg, m, Range(lo, hi)))
  {
    hide Opens;
    SameOpens(pg, Recorded(pg, m, Range(lo, hi)), pg);
  }

  lemma OpenSame(pg: Page, m: seq<byte>, lo: nat, hi: nat)
    requires PageShape(pg) && IsPage(m) && lo <= hi <= PAGE
    ensures SamePageBytes(Open(pg, m, lo, hi), Open(Checked(pg, m, lo, hi), m, lo, hi))
  {
  }

  // Entering a page that had no copy, and then opening it.
  lemma EnteredOpens(q: nat, pg: Page, pg': Page)
    requires PageShape(pg) && pg.masters == [] && Opens(Entered(q, pg), pg')
    ensures Opens(pg, pg')
  {
    hide Chained, Column;
    RegisterOpens(pg, q);
  }

  /** A trap only opens: a registered page shows at least what it showed, from its own
      copies, and no copy is added to it. */
  lemma TrapStepOpens(t: Tables, s: State, p: nat, off: nat, vma: Vma, v: Verdicts, q: nat)
    requires StateShape(s) && p in s.pages && off < PAGE && TrapReady(t, s, p, off, vma) && q in s.pages
    ensures var s' := TrapStep(t, s, p, off, vma, v).state;
      q in s'.pages && Opens(s.pages[q], s'.pages[q])
  {
    hide TrapStep, TrapReady, Opens, AfterTrap, TrapFinds, FirstTouch, SecondTouch, LastVma, Reaches, AfterOf;
    TrapMakes(t, s, p, off, vma, v, q);
    TrappedOpens(q, s.pages[q], TrapEffectOn(t, s, p, off, vma, v, q));
  }

  lemma WriteFaultedOpens(pg: Page, kw: bool)
    requires PageShape(pg)
    ensures Opens(pg, WriteFaulted(pg, kw))
  {
    hide Opens;
    RestoreOpens(pg);
    SameOpens(pg, Restored(pg), WriteFaulted(pg, kw));
    SameOpens(pg, pg, WriteFaulted(pg, kw));
  }

  /** No event but a write of the process brings a byte to a page from elsewhere, and none
      breaks the chain of its copies but a write of a registered page. */
  lemma StepChains(t: Tables, s: State, e: Event, q: nat)
    requires StateShape(s) && Enabled(t, s, e) && q in s.pages
    ensures q in Step(t, s, e).pages && PageShape(Step(t, s, e).pages[q])
    ensures !(e.UserWrite? && e.p == q) ==> Draws(s.pages[q], Step(t, s, e).pages[q])
    ensures Chained(s.pages[q]) && !(e.UserWrite? && e.p == q && s.pages[q].masters != []) ==>
      Chained(Step(t, s, e).pages[q])
  {
    hide Step, TrapReady, AfterFetch, AfterTrap, FetchEffect, TrapEffectOn, Chained, Draws, TrapStep;
    StepMakes(t, s, e, q);
    var pg := s.pages[q];
    SameOpens(pg, pg, pg);
    match e
    case Mmap(_, _, _, _) =>
    case UserWrite(p, bytes) => FreshChained(pg.(visible := bytes));
    case Fetch(p, off, v, v2) => FetchedChains(pg, FetchEffect(t, s, p, off, v, v2, q));
    case Trap(p, off, vma, v) =>
      TrapMakes(t, s, p, off, vma, v, q);
      TrapStepOpens(t, s, p, off, vma, v, q);
    case WriteFault(p, off, kw) =>
      WriteFaultedOpens(pg, kw);
      SameOpens(pg, Unhandled(pg, kw), pg);
    case Materialise(p, off, kw) =>
      SameOpens(pg, Materialised(pg, kw), pg);
      SameOpens(pg, Unhandled(pg, kw), pg);
    case Mprotect(p, vmWrite) => SameOpens(pg, Protected(pg, vmWrite), pg);
  }

  lemma FreshChained(pg: Page)
    ensures IsPage(pg.visible) && pg.masters == [] ==> Chained(pg)
  {
  }

  // ---------------------------------------------------------------- runs

  // The process does not write page p while it is registered.
  predicate NotOverwritten(t: Tables, s: State, es: seq<Event>, p: nat)
    requires StateShape(s) && Runs(t, s, es)
    decreases |es|
  {
    es != [] ==>
      && !(es[0].UserWrite? && es[0].p == p && p in s.pages && s.pages[p].masters != [])
      && NotOverwritten(t, Step(t, s, es[0]), es[1..], p)
  }

  lemma NextChained(t: Tables, s: State, e: Event, p: nat)
    requires StateShape(s) && Enabled(t, s, e) && p in Step(t, s, e).pages
    requires p in s.pages ==> Chained(s.pages[p])
    requires !(e.UserWrite? && e.p == p && p in s.pages && s.pages[p].masters != [])
    ensures Chained(Step(t, s, e).pages[p])
  {
    hide Step, TrapReady, EventPage, Chained;
    StepMakes(t, s, e, p);
    if p in s.pages {
      StepChains(t, s, e, p);
    } else {
      FreshChained(Step(t, s, e).pages[p]);
    }
  }

  /** The masking of a page depends on the writes of that page alone: in every run in which
      the process does not write it while it is registered, it stays a chain. */
  lemma {:induction false} RunChains(t: Tables, s: State, es: seq<Event>, p: nat)
    requires StateShape(s) && Runs(t, s, es) && NotOverwritten(t, s, es, p)
    requires p in s.pages ==> Chained(s.pages[p])
    ensures p in Final(t, s, es).pages ==> Chained(Final(t, s, es).pages[p])
    decreases |es|
  {
    hide Step, Enabled, Chained;
    if es != [] {
      if p in Step(t, s, es[0]).pages {
        NextChained(t, s, es[0], p);
      }
      RunChains(t, Step(t, s, es[0]), es[1..], p);
    }
  }
}
