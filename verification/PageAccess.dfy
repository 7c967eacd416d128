/**
 What the process gets: which pages execute after a handler, which bytes they show, what was
 checked for it, and what a page can do next.  The bits are stated one by one.
 */
module PageAccess {
  import opened Ld
  import opened Scanner
  import opened ZoneSearch
  import opened PageMachine
  import opened PageEffects

  // ---------------------------------------------------------------- first fetch

  // register_page refuses a page that begins or ends with nine mask bytes.
  lemma RegistrableExactly(data: seq<byte>)
    requires IsPage(data)
    ensures Registrable(data) <==>
      !(forall i | 0 <= i <= 8 :: data[i] == 0x0E) && !(forall i | 4087 <= i <= 4095 :: data[i] == 0x0E)
  {
  }

  /** The search goes on in the page after exactly if it runs out of the first page and that
      page is tracked, read-only, and not fetched yet. */
  lemma NextSearchedExactly(t: Tables, s: State, p: nat, off: nat)
    requires StateShape(s) && p in s.pages && off < PAGE
    requires FetchExtent(t, s.pages[p].visible, NextOf(s, p), off).Extent?
    ensures FetchExtent(t, s.pages[p].visible, NextOf(s, p), off).pages == 2 <==>
      && Scan(t, s.pages[p].visible[off..]).Continue?
      && p + 1 in s.pages && !s.pages[p + 1].vmWrite && s.pages[p + 1].exeDeny
  {
    hide Scan;
  }

  // The bytes start..end the handler closes around: the zone found, from the first byte if the
  // page before ends inside an instruction, and up to the next boundary if it is empty.
  predicate ZoneOf(s: State, p: nat, off: nat, z: Extent, start: nat, end: nat) {
    && z.Extent?
    && start == (if p > 0 && p - 1 in s.partialEnd then 0 else off)
    && if z.end != off then end == z.end else off <= end < off + 4096 && end % 4096 == 0
  }

  // A first fetch that is not short-cut, of a zone whose pages are all registered.
  predicate Registers(t: Tables, s: State, p: nat, off: nat, z: Extent)
    requires StateShape(s) && p in s.pages && off < PAGE
  {
    && (p > 0 || off > 0) && !s.pages[p].checkDeny
    && z == FetchExtent(t, s.pages[p].visible, NextOf(s, p), off) && z.Extent?
    && Registrable(s.pages[p].visible) && (z.pages == 2 ==> Registrable(s.pages[p + 1].visible))
  }

  lemma ClosedFetch(t: Tables, s: State, p: nat, off: nat, v: bool, v2: bool, q: nat, z: Extent, start: nat, end: nat)
    requires StateShape(s) && p in s.pages && off < PAGE && q in s.pages && Registers(t, s, p, off, z)
    requires ZoneOf(s, p, off, z, start, end) && (q == p || (z.pages == 2 && q == p + 1))
    ensures FetchEffect(t, s, p, off, v, v2, q) == CloseEffect(z.pages, start, end, v, v2, q == p).(push := true)
  {
    hide FetchExtent, Registrable, CloseEffect;
  }

  /** An accepted zone opens its pages: each of them executes and is marked as checked, keeps
      what it showed as its latest copy, and shows of it what lies between the start and the
      end, counted from the first page, which an aligned end moves to the start of the last. */
  lemma AcceptedZoneOpens(t: Tables, s: State, p: nat, off: nat, v2: bool, q: nat, z: Extent, start: nat, end: nat)
    requires StateShape(s) && p in s.pages && off < PAGE && q in s.pages && Registers(t, s, p, off, z)
    requires ZoneOf(s, p, off, z, start, end) && start < end && (q == p || (z.pages == 2 && q == p + 1))
    ensures q in FetchStep(t, s, p, off, true, v2).pages
    ensures var pg, pg' := s.pages[q], FetchStep(t, s, p, off, true, v2).pages[q];
      && !pg'.exeDeny && pg'.checkDeny && pg'.masters == [pg.visible] + pg.masters
      && (q == p && pg.vmWrite ==> !pg'.write && pg'.origWrite)
      && (q != p || !pg.vmWrite ==> pg'.write == pg.write && pg'.origWrite == pg.origWrite)
      && pg'.origExe == pg.origExe && pg'.vmWrite == pg.vmWrite && |pg'.visible| == PAGE
      && forall i | 0 <= i < PAGE ::
           var a := (q - p) * 4096 + i;
           && pg'.visible[i] == (if start <= a < end % 4096 + (z.pages - 1) * 4096 then pg.visible[i] else 0x0E)
           && (start <= a < end ==> (i, pg.visible[i]) in pg'.checked)
  {
    hide FetchStep, FetchExtent, Registrable, FetchEffect, Checked;
    FetchMakes(t, s, p, off, true, v2, q);
    ClosedFetch(t, s, p, off, true, v2, q, z, start, end);
    var e := FetchEffect(t, s, p, off, true, v2, q);
    ZoneFits(t, s, p, off, z, start, end);
    AfterClosing(s.pages[q], e);
  }

  lemma ZoneFits(t: Tables, s: State, p: nat, off: nat, z: Extent, start: nat, end: nat)
    requires StateShape(s) && p in s.pages && off < PAGE && Registers(t, s, p, off, z)
    requires ZoneOf(s, p, off, z, start, end)
    ensures 1 <= z.pages <= 2 && start < PAGE && end <= z.pages * 4096
  {
    hide FetchExtent, Registrable;
  }

  // The page after closing it, bit by bit.
  lemma AfterClosing(pg: Page, e: Fetched)
    requires IsPage(pg.visible) && e.push && e.shown.Only? && e.check.Range? && e.check.from <= e.check.to <= PAGE
    requires e.permit.PermitFirst? || e.permit.PermitNext?
    ensures var pg' := AfterFetch(pg, e);
      && !pg'.exeDeny && pg'.checkDeny && pg'.masters == [pg.visible] + pg.masters
      && (e.permit.PermitFirst? && pg.vmWrite ==> !pg'.write && pg'.origWrite)
      && (e.permit.PermitNext? || !pg.vmWrite ==> pg'.write == pg.write && pg'.origWrite == pg.origWrite)
      && pg'.origExe == pg.origExe && pg'.vmWrite == pg.vmWrite && |pg'.visible| == PAGE
      && forall i | 0 <= i < PAGE ::
           && pg'.visible[i] == (if e.shown.lo <= i < e.shown.hi then pg.visible[i] else 0x0E)
           && (e.check.from <= i < e.check.to ==> (i, pg.visible[i]) in pg'.checked)
  {
  }

  /** So a zone whose end lies unaligned in its last page is shown unchanged, and nothing else. */
  lemma UnalignedZoneIsShown(t: Tables, s: State, p: nat, off: nat, v2: bool, q: nat, z: Extent, start: nat, end: nat)
    requires StateShape(s) && p in s.pages && off < PAGE && q in s.pages && Registers(t, s, p, off, z)
    requires ZoneOf(s, p, off, z, start, end) && start < end && (q == p || (z.pages == 2 && q == p + 1))
    requires (z.pages - 1) * 4096 < end && end % 4096 != 0
    ensures q in FetchStep(t, s, p, off, true, v2).pages
    ensures var pg, pg' := s.pages[q], FetchStep(t, s, p, off, true, v2).pages[q];
      |pg'.visible| == PAGE && forall i | 0 <= i < PAGE ::
        pg'.visible[i] == if start <= (q - p) * 4096 + i < end then pg.visible[i] else 0x0E
  {
    hide FetchStep, FetchExtent, Registrable;
    ZoneFits(t, s, p, off, z, start, end);
    AcceptedZoneOpens(t, s, p, off, v2, q, z, start, end);
    LastPageOffset(z.pages, end);
  }

  lemma LastPageOffset(n: nat, end: nat)
    requires 1 <= n <= 2 && (n - 1) * 4096 < end < n * 4096
    ensures end % 4096 + (n - 1) * 4096 == end
  {
  }

  /** A refused fetch gives nothing: of any page it can only have registered a copy. */
  lemma RefusedFetchGivesNothing(t: Tables, s: State, p: nat, off: nat, v2: bool, q: nat)
    requires StateShape(s) && p in s.pages && off < PAGE && q in s.pages && !s.pages[p].checkDeny
    ensures q in FetchStep(t, s, p, off, false, v2).pages
    ensures var pg, pg' := s.pages[q], FetchStep(t, s, p, off, false, v2).pages[q];
      pg' == pg || pg' == pg.(masters := [pg.visible] + pg.masters)
  {
    hide FetchStep, FetchExtent, Registrable, AfterFetch, FetchEffect;
    FetchMakes(t, s, p, off, false, v2, q);
    RefusedEffect(t, s, p, off, v2, q);
    AfterPush(s.pages[q], false);
    AfterPush(s.pages[q], true);
  }

  lemma RefusedEffect(t: Tables, s: State, p: nat, off: nat, v2: bool, q: nat)
    requires StateShape(s) && p in s.pages && off < PAGE && !s.pages[p].checkDeny
    ensures var e := FetchEffect(t, s, p, off, false, v2, q); e == Fetched(e.push, All, NoCheck, NoPermit)
  {
    hide FetchExtent, Registrable;
  }

  lemma AfterPush(pg: Page, push: bool)
    ensures AfterFetch(pg, Fetched(push, All, NoCheck, NoPermit))
         == if push then pg.(masters := [pg.visible] + pg.masters) else pg
  {
  }

  // The handler falls back to checking the whole page: nothing decodes, or a page of the zone
  // cannot be registered, or the zone it was to close is empty and the second check passes too.
  ghost predicate FallsBack(t: Tables, s: State, p: nat, off: nat, v2: bool)
    requires StateShape(s) && p in s.pages && off < PAGE
  {
    && (p > 0 || off > 0) && !s.pages[p].checkDeny
    && var z := FetchExtent(t, s.pages[p].visible, NextOf(s, p), off);
       || z.Undecodable?
       || !Registrable(s.pages[p].visible) || (z.pages == 2 && !Registrable(s.pages[p + 1].visible))
       || (v2 && forall start, end | ZoneOf(s, p, off, z, start, end) :: end <= start)
  }

  /** Then an accepted page executes as it is, all of it checked. */
  lemma AcceptedPageExecutes(t: Tables, s: State, p: nat, off: nat, v2: bool)
    requires StateShape(s) && p in s.pages && off < PAGE && FallsBack(t, s, p, off, v2)
    ensures p in FetchStep(t, s, p, off, true, v2).pages
    ensures var pg, pg' := s.pages[p], FetchStep(t, s, p, off, true, v2).pages[p];
      && !pg'.exeDeny && pg'.checkDeny && pg'.visible == pg.visible
      && (pg.vmWrite ==> !pg'.write && pg'.origWrite)
      && forall i | 0 <= i < PAGE :: (i, pg.visible[i]) in pg'.checked
  {
    hide FetchStep, FetchExtent, Registrable;
    FetchMakes(t, s, p, off, true, v2, p);
    var z, e := FetchExtent(t, s.pages[p].visible, NextOf(s, p), off), FetchEffect(t, s, p, off, true, v2, p);
    if z.Extent? {
      var start, end := ZoneStart(s, p, off), FixedEnd(off, z.end);
      assert ZoneOf(s, p, off, z, start, end);
    }
    assert e.shown == All && e.check == Range(0, PAGE) && e.permit == PermitFirst;
    AfterWholeCheck(s.pages[p], e);
  }

  lemma AfterWholeCheck(pg: Page, e: Fetched)
    requires IsPage(pg.visible) && e.shown == All && e.check == Range(0, PAGE) && e.permit == PermitFirst
    ensures var pg' := AfterFetch(pg, e);
      && !pg'.exeDeny && pg'.checkDeny && pg'.visible == pg.visible
      && (pg.vmWrite ==> !pg'.write && pg'.origWrite)
      && forall i | 0 <= i < PAGE :: (i, pg.visible[i]) in pg'.checked
  {
  }

  /** A page already checked executes again at once, whatever the checks would say. */
  lemma CheckedPageExecutes(t: Tables, s: State, p: nat, off: nat, v: bool, v2: bool, q: nat)
    requires StateShape(s) && p in s.pages && off < PAGE && q in s.pages && s.pages[p].checkDeny && (p > 0 || off > 0)
    ensures q in FetchStep(t, s, p, off, v, v2).pages
    ensures var pg, pg' := s.pages[q], FetchStep(t, s, p, off, v, v2).pages[q];
      if q != p then pg' == pg
      else
        && !pg'.exeDeny && pg'.checkDeny && pg'.visible == pg.visible && pg'.masters == pg.masters
        && pg'.checked == pg.checked && (pg.vmWrite ==> !pg'.write && pg'.origWrite)
  {
    hide FetchStep;
    FetchMakes(t, s, p, off, v, v2, q);
    AllIsMasked(s.pages[q].visible);
  }

  /** At address zero a fetch does nothing at all. */
  lemma AddressZeroFetched(t: Tables, s: State, v: bool, v2: bool)
    requires StateShape(s) && 0 in s.pages
    ensures FetchStep(t, s, 0, 0, v, v2) == s
  {
  }

  // ---------------------------------------------------------------- traps

  // find_current_page and page_not_fetched_yet: the page has a copy, or may execute and can be
  // registered.
  predicate Findable(pg: Page)
    requires PageShape(pg)
  {
    || pg.masters != []
    || ((!pg.exeDeny || pg.origExe)
        && !(forall i | 0 <= i <= 8 :: pg.visible[i] == 0x0E)
        && !(forall i | 4087 <= i <= 4095 :: pg.visible[i] == 0x0E))
  }

  /** What the handler knows of the page after the one that traps. */
  lemma AfterExactly(s: State, p: nat, vma: Vma)
    requires StateShape(s)
    ensures AfterOf(s, p, vma).Unmapped? <==> p + 1 !in s.pages && vma.NoVma?
    ensures AfterOf(s, p, vma).Usable? <==> p + 1 in s.pages && Findable(s.pages[p + 1])
    ensures p + 1 in s.pages && s.pages[p + 1].masters != [] ==>
      AfterOf(s, p, vma) == Usable(s.pages[p + 1].masters[0], s.pages[p + 1].visible)
    ensures AfterOf(s, p, vma).Usable? && s.pages[p + 1].masters == [] ==>
      && AfterOf(s, p, vma).master == s.pages[p + 1].visible && |AfterOf(s, p, vma).visible| == 4096
      && forall i | 0 <= i < 4096 :: AfterOf(s, p, vma).visible[i] == 0x0E
  {
    hide Registrable;
    if p + 1 in s.pages {
      RegistrableExactly(s.pages[p + 1].visible);
    }
  }

  /** A trap in a page that cannot be found, or at address zero, changes nothing. */
  lemma UnfoundTrapDoesNothing(t: Tables, s: State, p: nat, off: nat, vma: Vma, v: Verdicts)
    requires StateShape(s) && p in s.pages && off < PAGE && TrapReady(t, s, p, off, vma)
    requires (p == 0 && off == 0) || !Findable(s.pages[p])
    ensures TrapStep(t, s, p, off, vma, v) == Outcome(s, false)
  {
    hide Registrable;
    RegistrableExactly(s.pages[p].visible);
  }

  // Nine mask bytes in a row, the ninth before the end of the copy.
  predicate NineMasks(m: seq<byte>, at: nat) {
    at + 9 <= 4096 && |m| == 4096 && forall i | at <= i < at + 9 :: m[i] == 0x0E
  }

  /** When a trap is handled: a zone of some length is accepted, is within the byte quota, and
      does not begin with a mask byte; or there is no zone, the whole page is accepted and
      within the quota, and no nine mask bytes stand where the search was last started. */
  lemma HandledExactly(t: Tables, s: State, p: nat, off: nat, vma: Vma, v: Verdicts, end: nat)
    requires StateShape(s) && p in s.pages && off < PAGE && TrapReady(t, s, p, off, vma)
    requires (p > 0 || off > 0) && TrapPageUsable(s.pages[p])
    requires var z := TrapFinds(t, s, p, off, vma);
      z.Zone? ==> if z.end != off then end == z.end else off <= end < off + 4096 && end % 4096 == 0
    ensures var z, pg := TrapFinds(t, s, p, off, vma), s.pages[p];
      var m := if pg.masters != [] then pg.masters[0] else pg.visible;
      |m| == 4096
      && (TrapStep(t, s, p, off, vma, v).handled <==>
            match z
            case GiveUp(_) => false
            case WholePage(_, _, at) => !NineMasks(m, at) && v.page && !v.pageOver
            case Zone(_, _, _, _) =>
              && v.zone && !v.zoneOver
              && if off < end then m[off] != 0x0E else !NineMasks(m, off) && v.page && !v.pageOver)
  {
    hide TrapStep, TrapFinds, Registrable, FirstTouch, Entered, TrapReady;
    TrapMakes(t, s, p, off, vma, v, p);
    EnteredKeeps(p, s.pages[p]);
    var pg, z := TrapPage(p, s.pages[p]), TrapFinds(t, s, p, off, vma);
    MasterIsPage(pg);
    FindsFrom(t, s, p, off, vma);
    FirstTouchHandles(z, pg.masters[0], off, v, end);
  }

  lemma FirstTouchHandles(z: TrapExtent, m: seq<byte>, off: nat, v: Verdicts, end: nat)
    requires IsPage(m) && off < PAGE && (z.Zone? ==> off <= z.end)
    requires z.Zone? ==> if z.end != off then end == z.end else off <= end < off + 4096 && end % 4096 == 0
    ensures Handles(FirstTouch(z, m, off, v)) <==>
      match z
      case GiveUp(_) => false
      case WholePage(_, _, at) => !NineMasks(m, at) && v.page && !v.pageOver
      case Zone(_, _, _, _) =>
        && v.zone && !v.zoneOver
        && if off < end then m[off] != 0x0E else !NineMasks(m, off) && v.page && !v.pageOver
  {
    if z.Zone? {
      assert end == FixedEnd(off, z.end);
    }
  }

  lemma FindsFrom(t: Tables, s: State, p: nat, off: nat, vma: Vma)
    requires StateShape(s) && p in s.pages && off < PAGE && TrapReady(t, s, p, off, vma)
    requires TrapPageUsable(s.pages[p]) && !IsAddressZero(p, off)
    ensures TrapFinds(t, s, p, off, vma).Zone? ==> off <= TrapFinds(t, s, p, off, vma).end
  {
    AfterShape(s, p, vma);
    MasterIsPage(TrapPage(p, s.pages[p]));
  }

  /** After a handled trap its page executes: one that was registered keeps its bits, and one
      that was not is marked as checked and allowed. */
  lemma TrappedPageExecutes(t: Tables, s: State, p: nat, off: nat, vma: Vma, v: Verdicts)
    requires StateShape(s) && p in s.pages && off < PAGE && TrapReady(t, s, p, off, vma) && !s.pages[p].exeDeny
    requires TrapStep(t, s, p, off, vma, v).handled
    ensures p in TrapStep(t, s, p, off, vma, v).state.pages
    ensures var pg, pg' := s.pages[p], TrapStep(t, s, p, off, vma, v).state.pages[p];
      && !pg'.exeDeny && (pg.masters == [] ==> pg'.checkDeny)
      && (pg.masters != [] ==> pg'.checkDeny == pg.checkDeny && pg'.write == pg.write)
  {
    hide TrapStep, TrapFinds, Registrable, FirstTouch, Touched, Entered, EntersNext, LastVma, TrapReady, Permitted;
    TrapMakes(t, s, p, off, vma, v, p);
    EnteredKeeps(p, s.pages[p]);
    MasterIsPage(TrapPage(p, s.pages[p]));
    if TrapFinds(t, s, p, off, vma).GiveUp? {
      GiveUpTouches(TrapFinds(t, s, p, off, vma), TrapPage(p, s.pages[p]), off, v);
    }
    var e := TrapEffectOn(t, s, p, off, vma, v, p);
    var pg1 := if e.enter then Entered(p, s.pages[p]) else s.pages[p];
    EnteredShape(p, s.pages[p]);
    TouchKeepsBits(pg1, e.touch);
    PermittedBytes(Touched(pg1, e.touch), e.permit);
  }

  lemma GiveUpTouches(z: TrapExtent, pg: Page, off: nat, v: Verdicts)
    requires PageShape(pg) && pg.masters != [] && IsPage(pg.masters[0]) && off < PAGE && z.GiveUp?
    ensures !Handles(FirstTouch(z, pg.masters[0], off, v))
  {
  }

  lemma EnteredShape(q: nat, pg: Page)
    requires PageShape(pg)
    ensures PageShape(Entered(q, pg))
  {
  }

  lemma TouchKeepsBits(pg: Page, touch: Touch)
    requires PageShape(pg)
    ensures var pg' := Touched(pg, touch);
      && pg'.exeDeny == pg.exeDeny && pg'.checkDeny == pg.checkDeny && pg'.write == pg.write
      && pg'.vmWrite == pg.vmWrite && pg'.origWrite == pg.origWrite && pg'.origExe == pg.origExe
  {
    hide Checked, Opened;
    if pg.masters != [] {
      MasterIsPage(pg);
      var m := pg.masters[0];
      match touch
      case Untouched =>
      case Inspected(lo, hi) =>
        if lo <= hi <= PAGE {
          CheckedKeepsBits(pg, m, lo, hi);
        }
      case Unmasked(lo, hi) =>
        if lo <= hi <= PAGE {
          CheckedKeepsBits(pg, m, lo, hi);
        }
      case GivenBack => CheckedKeepsBits(pg, m, 0, PAGE);
    }
  }

  lemma CheckedKeepsBits(pg: Page, m: seq<byte>, lo: nat, hi: nat)
    requires IsPage(pg.visible) && IsPage(m) && lo <= hi <= PAGE
    ensures Checked(pg, m, lo, hi).(checked := pg.checked) == pg
  {
  }

  /** A page that traps without a copy is registered, and masked from end to end unless it is
      page 0.  If the trap is handled with a zone, that is shown as well; if it is handled
      without one, the page is as it was. */
  lemma FreshTrapShows(t: Tables, s: State, p: nat, off: nat, vma: Vma, v: Verdicts, end: nat)
    requires StateShape(s) && p in s.pages && off < PAGE && TrapReady(t, s, p, off, vma)
    requires (p > 0 || off > 0) && TrapPageUsable(s.pages[p]) && s.pages[p].masters == []
    requires var z := TrapFinds(t, s, p, off, vma);
      z.Zone? ==> if z.end != off then end == z.end else off <= end < off + 4096 && end % 4096 == 0
    ensures p in TrapStep(t, s, p, off, vma, v).state.pages
    ensures var z, r := TrapFinds(t, s, p, off, vma), TrapStep(t, s, p, off, vma, v);
      var pg, pg' := s.pages[p], r.state.pages[p];
      var zone := r.handled && z.Zone? && off < end;
      |pg'.visible| == PAGE
      && if r.handled && !zone then pg'.visible == pg.visible && pg'.masters == []
         else
           && pg'.masters == [pg.visible]
           && forall i | 0 <= i < PAGE ::
                pg'.visible[i] == if p == 0 || (zone && off <= i < end) then pg.visible[i] else 0x0E
  {
    hide TrapStep, TrapFinds, Registrable, FirstTouch, Entered, EntersNext, LastVma, TrapReady, Touched, Permitted;
    TrapMakes(t, s, p, off, vma, v, p);
    EnteredKeeps(p, s.pages[p]);
    EnteredShape(p, s.pages[p]);
    FindsFrom(t, s, p, off, vma);
    var e, pg1, z := TrapEffectOn(t, s, p, off, vma, v, p), Entered(p, s.pages[p]), TrapFinds(t, s, p, off, vma);
    PermittedBytes(Touched(pg1, e.touch), e.permit);
    FreshTouch(z, s.pages[p].visible, off, v, end);
    FreshTouched(p, s.pages[p], e.touch);
  }

  // A zone is unmasked from the byte of the trap to its end in the page; without one the copy
  // is given back.
  lemma FreshTouch(z: TrapExtent, m: seq<byte>, off: nat, v: Verdicts, end: nat)
    requires IsPage(m) && off < PAGE && (z.Zone? ==> off <= z.end)
    requires z.Zone? ==> if z.end != off then end == z.end else off <= end < off + 4096 && end % 4096 == 0
    ensures var touch := FirstTouch(z, m, off, v);
      && (touch.Unmasked? ==> z.Zone? && off < end && touch.lo == off && touch.hi == Min(end, PAGE))
      && (touch.GivenBack? ==> !(z.Zone? && off < end))
  {
    hide AllMaskedAt;
    if z.Zone? {
      assert end == FixedEnd(off, z.end);
    }
  }

  lemma FreshTouched(q: nat, pg: Page, touch: Touch)
    requires PageShape(pg) && pg.masters == [] && (touch.Unmasked? ==> touch.lo <= touch.hi <= PAGE)
    ensures PageShape(Entered(q, pg)) && |Touched(Entered(q, pg), touch).visible| == PAGE
    ensures var pg' := Touched(Entered(q, pg), touch);
      if touch.GivenBack? then pg'.visible == pg.visible && pg'.masters == []
      else
        && pg'.masters == [pg.visible]
        && forall i | 0 <= i < PAGE ::
             pg'.visible[i] == if q == 0 || (touch.Unmasked? && touch.lo <= i < touch.hi) then pg.visible[i] else 0x0E
  {
  }

  /** The second page, when the search runs into it and it had no copy: it is registered and
      masked.  If the trap is handled with two pages, it executes, is marked as checked, and
      shows its zone; otherwise it shows nothing, and its bits are as before. */
  lemma EnteredPageOpens(t: Tables, s: State, p: nat, off: nat, vma: Vma, v: Verdicts)
    requires StateShape(s) && p in s.pages && off < PAGE && TrapReady(t, s, p, off, vma)
    requires (p > 0 || off > 0) && TrapPageUsable(s.pages[p]) && EntersNext(t, s, p, off, vma)
    ensures p + 1 in s.pages && p + 1 in TrapStep(t, s, p, off, vma, v).state.pages
    ensures var z, r := TrapFinds(t, s, p, off, vma), TrapStep(t, s, p, off, vma, v);
      var nx, nx' := s.pages[p + 1], r.state.pages[p + 1];
      var two := r.handled && !z.GiveUp? && z.pages == 2;
      && nx'.masters == [nx.visible] && |nx'.visible| == PAGE
      && nx'.exeDeny == (nx.exeDeny && !two) && nx'.checkDeny == (nx.checkDeny || two)
      && nx'.write == (nx.write && !(two && nx.vmWrite)) && nx'.origWrite == (nx.origWrite || (two && nx.vmWrite))
      && forall i | 0 <= i < PAGE ::
           nx'.visible[i] == if two && z.Zone? && 4096 + i < z.end then nx.visible[i] else 0x0E
  {
    hide TrapStep, TrapFinds, Registrable, FirstTouch, Entered, TrapReady;
    TrapMakes(t, s, p, off, vma, v, p + 1);
    var nx, e := s.pages[p + 1], TrapEffectOn(t, s, p, off, vma, v, p + 1);
    EnteredKeeps(p + 1, nx);
    EnteredShape(p + 1, nx);
    EnteredTouched(p + 1, nx, e.touch);
    SecondTouched(t, s, p, off, vma, v);
  }

  lemma EnteredTouched(q: nat, pg: Page, touch: Touch)
    requires PageShape(pg) && pg.masters == [] && q > 0 && !touch.GivenBack?
    ensures PageShape(Entered(q, pg))
    ensures var pg' := Touched(Entered(q, pg), touch);
      && pg'.masters == [pg.visible] && |pg'.visible| == PAGE && pg'.exeDeny == pg.exeDeny
      && pg'.checkDeny == pg.checkDeny && pg'.write == pg.write && pg'.origWrite == pg.origWrite
      && forall i | 0 <= i < PAGE ::
           pg'.visible[i] == if touch.Unmasked? && touch.lo <= i < touch.hi <= PAGE then pg.visible[i] else 0x0E
  {
  }

  lemma SecondTouched(t: Tables, s: State, p: nat, off: nat, vma: Vma, v: Verdicts)
    requires StateShape(s) && p in s.pages && off < PAGE && TrapReady(t, s, p, off, vma)
    requires (p > 0 || off > 0) && TrapPageUsable(s.pages[p]) && EntersNext(t, s, p, off, vma)
    ensures var z, e := TrapFinds(t, s, p, off, vma), TrapEffectOn(t, s, p, off, vma, v, p + 1);
      var two := TrapHandled(t, s, p, off, vma, v) && !z.GiveUp? && z.pages == 2;
      && e.enter && e.permit == (if two then PermitLate(s.pages[p + 1].vmWrite) else NoPermit)
      && !e.touch.GivenBack?
      && (e.touch.Unmasked? <==> two && z.Zone?)
      && (e.touch.Unmasked? ==> e.touch.lo == 0 && 4096 + e.touch.hi == z.end && e.touch.hi <= PAGE)
  {
    hide Registrable, TrapSearch, Reaches, TrapReady;
  }

  // ---------------------------------------------------------------- the history

  /** The history is honest.  Nothing enters it but by a fetch whose check passed, and then
      bytes the page showed, or by a trap one of whose checks passed, and then bytes of its
      latest copy. */
  lemma HistoryIsHonest(t: Tables, s: State, e: Event, q: nat, i: nat, b: byte)
    requires StateShape(s) && Enabled(t, s, e) && q in s.pages && q in Step(t, s, e).pages
    requires (i, b) in Step(t, s, e).pages[q].checked && (i, b) !in s.pages[q].checked
    ensures i < PAGE && (e.Fetch? || e.Trap?)
    ensures e.Fetch? ==> e.verdict && b == s.pages[q].visible[i]
    ensures e.Trap? ==>
      && (e.verdicts.zone || e.verdicts.page)
      && var m := if s.pages[q].masters != [] then s.pages[q].masters[0] else s.pages[q].visible;
         i < |m| && b == m[i]
  {
    hide Step, TrapReady, AfterFetch, AfterTrap, FetchEffect, TrapEffectOn;
    StepMakes(t, s, e, q);
    match e
    case Fetch(p, off, v, v2) =>
      FetchRecords(s.pages[q], FetchEffect(t, s, p, off, v, v2, q), i, b);
      CheckNeedsVerdict(t, s, p, off, v, v2, q);
    case Trap(p, off, vma, v) =>
      TouchNeedsVerdict(t, s, p, off, vma, v, q);
      TrapRecords(q, s.pages[q], TrapEffectOn(t, s, p, off, vma, v, q), i, b);
    case _ =>
  }

  lemma FetchRecords(pg: Page, e: Fetched, i: nat, b: byte)
    requires IsPage(pg.visible) && (i, b) in AfterFetch(pg, e).checked && (i, b) !in pg.checked
    ensures e.check.Range? && i < PAGE && b == pg.visible[i]
  {
    hide Masked, Permitted;
    var pg1 := Recorded(if e.push then Register(pg) else pg, pg.visible, e.check);
    PermittedBytes(pg1.(visible := Masked(pg.visible, e.shown)), e.permit);
  }

  lemma CheckNeedsVerdict(t: Tables, s: State, p: nat, off: nat, v: bool, v2: bool, q: nat)
    requires StateShape(s) && p in s.pages && off < PAGE
    ensures FetchEffect(t, s, p, off, v, v2, q).check.Range? ==> v
  {
    hide FetchExtent, Registrable;
  }

  lemma TrapRecords(q: nat, pg: Page, e: TrapEffect, i: nat, b: byte)
    requires PageShape(pg) && (e.enter ==> pg.masters == [])
    requires (i, b) in AfterTrap(q, pg, e).checked && (i, b) !in pg.checked
    ensures !e.touch.Untouched? && i < PAGE
    ensures var m := if pg.masters != [] then pg.masters[0] else pg.visible; i < |m| && b == m[i]
  {
    hide Permitted, Entered, Touched;
    EnteredKeeps(q, pg);
    EnteredShape(q, pg);
    var pg1 := if e.enter then Entered(q, pg) else pg;
    PermittedBytes(Touched(pg1, e.touch), e.permit);
    TouchRecords(pg1, e.touch, i, b);
  }

  lemma TouchRecords(pg: Page, touch: Touch, i: nat, b: byte)
    requires PageShape(pg) && (i, b) in Touched(pg, touch).checked && (i, b) !in pg.checked
    ensures !touch.Untouched? && i < PAGE && pg.masters != [] && |pg.masters[0]| == PAGE && b == pg.masters[0][i]
  {
    hide Opened;
    MasterIsPage(pg);
  }

  lemma TouchNeedsVerdict(t: Tables, s: State, p: nat, off: nat, vma: Vma, v: Verdicts, q: nat)
    requires StateShape(s) && p in s.pages && off < PAGE && TrapReady(t, s, p, off, vma) && q in s.pages
    ensures var e := TrapEffectOn(t, s, p, off, vma, v, q);
      (e.enter ==> s.pages[q].masters == []) && (!e.touch.Untouched? ==> v.zone || v.page)
  {
    hide TrapFinds, Registrable, Reaches, TrapReady, Entered;
  }

  // ---------------------------------------------------------------- the other events

  /** A fresh page of an executable mapping shows what was mapped, does not execute, is not
      checked, has no copy, and is writable at once only as the kernel left it. */
  lemma MappedPage(t: Tables, s: State, p: nat, bytes: seq<byte>, vmWrite: bool, kw: bool)
    requires StateShape(s) && Enabled(t, s, Mmap(p, bytes, vmWrite, kw))
    ensures p in Step(t, s, Mmap(p, bytes, vmWrite, kw)).pages
    ensures var pg := Step(t, s, Mmap(p, bytes, vmWrite, kw)).pages[p];
      && pg.visible == bytes && pg.masters == [] && pg.checked == {} && pg.vmWrite == vmWrite
      && pg.exeDeny && pg.origExe && !pg.checkDeny && !pg.origWrite && pg.write == kw
  {
  }

  /** A write fault the handler sees stops the page from executing, unmarks it and begins a new
      history.  On a page whose write bit the module took away it lets the write happen, and
      gives the latest copy back if the page was checked. */
  lemma WriteFaultLetsWrite(t: Tables, s: State, p: nat, off: nat, kw: bool)
    requires StateShape(s) && Enabled(t, s, WriteFault(p, off, kw)) && (p > 0 || off > 0)
    ensures p in Step(t, s, WriteFault(p, off, kw)).pages
    ensures var pg, pg' := s.pages[p], Step(t, s, WriteFault(p, off, kw)).pages[p];
      && pg'.exeDeny && !pg'.checkDeny && pg'.checked == {} && pg'.origExe
      && (pg'.write <==> pg.origWrite || kw)
      && (pg.origWrite && pg.checkDeny && pg.masters != [] ==>
            pg'.visible == pg.masters[0] && pg.masters == [pg.masters[0]] + pg'.masters)
      && (!(pg.origWrite && pg.checkDeny && pg.masters != []) ==>
            pg'.visible == pg.visible && pg'.masters == pg.masters)
      && pg'.vmWrite == pg.vmWrite && pg'.origWrite == pg.origWrite
  {
  }

  /** A page that is materialised again does not execute and is to be checked again; it keeps
      its bytes, its copies and its history. */
  lemma MaterialisedPage(t: Tables, s: State, p: nat, off: nat, kw: bool)
    requires StateShape(s) && Enabled(t, s, Materialise(p, off, kw)) && (p > 0 || off > 0)
    ensures p in Step(t, s, Materialise(p, off, kw)).pages
    ensures var pg, pg' := s.pages[p], Step(t, s, Materialise(p, off, kw)).pages[p];
      && pg'.exeDeny && !pg'.checkDeny && pg'.write == kw && pg'.origExe
      && pg'.visible == pg.visible && pg'.masters == pg.masters && pg'.checked == pg.checked
      && pg'.vmWrite == pg.vmWrite && pg'.origWrite == pg.origWrite
  {
  }

  /** After a change between executable protections a page does not execute and faults when it
      is written; that it was checked, its bytes, its copies and its history stay. */
  lemma ProtectedPage(t: Tables, s: State, p: nat, vmWrite: bool)
    requires StateShape(s) && p in s.pages
    ensures p in Step(t, s, Mprotect(p, vmWrite)).pages
    ensures var pg, pg' := s.pages[p], Step(t, s, Mprotect(p, vmWrite)).pages[p];
      && pg'.exeDeny && !pg'.write && pg'.vmWrite == vmWrite && pg'.origWrite == vmWrite && pg'.origExe
      && pg'.checkDeny == pg.checkDeny
      && pg'.visible == pg.visible && pg'.masters == pg.masters && pg'.checked == pg.checked
  {
  }

  /** At address zero a fault leaves everything but the kernel's write bit. */
  lemma AddressZeroFaulted(t: Tables, s: State, kw: bool)
    requires StateShape(s) && 0 in s.pages
    ensures Enabled(t, s, WriteFault(0, 0, kw)) ==>
      Step(t, s, WriteFault(0, 0, kw)).pages == s.pages[0 := s.pages[0].(write := kw)]
    ensures Enabled(t, s, Materialise(0, 0, kw)) ==>
      Step(t, s, Materialise(0, 0, kw)).pages == s.pages[0 := s.pages[0].(write := kw)]
  {
  }

  /** Only a fetch or a trap of page p or of the one before can change a page by a handler's
      hand; every other event touches the page it names alone. */
  lemma OthersUntouched(t: Tables, s: State, e: Event, q: nat)
    requires StateShape(s) && Enabled(t, s, e) && q in s.pages && e.p != q
    requires e.Fetch? || e.Trap? ==> e.p + 1 != q
    ensures q in Step(t, s, e).pages && Step(t, s, e).pages[q] == s.pages[q]
  {
    hide Step, TrapReady, FetchExtent, Registrable, CloseEffect, TrapFinds, Reaches;
    StepMakes(t, s, e, q);
    AllIsMasked(s.pages[q].visible);
  }
}
