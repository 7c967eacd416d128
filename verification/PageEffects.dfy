/**
 What every event does, page by page: the exact page it leaves in the place of each one
 there was, as a function of that page and of what the handler found.
 */
module PageEffects {
  import opened Ld
  import opened Scanner
  import opened ZoneSearch
  import opened PageMachine

  // The page-table bits a handler sets on its way out: those of the first page of a fetch, of
  // the next one, or of a page the trap handler registered itself.
  datatype Permit = NoPermit | PermitFirst | PermitNext | PermitLate(vmaWrite: bool)

  function Permitted(pg: Page, permit: Permit): Page {
    match permit
    case NoPermit => pg
    case PermitFirst => AllowFirst(pg)
    case PermitNext => AllowNext(pg)
    case PermitLate(w) => AllowTrapped(pg, w)
  }

  // ---------------------------------------------------------------- first fetch

  // The part of a page that stays as it is; the rest is masked.
  datatype Shown = All | Only(lo: nat, hi: nat)

  // The part of a page that run_kernel_check passed.
  datatype Check = NoCheck | Range(from: nat, to: nat)

  datatype Fetched = Fetched(push: bool, shown: Shown, check: Check, permit: Permit)

  const NOTHING := Fetched(false, All, NoCheck, NoPermit)

  function Masked(bytes: seq<byte>, shown: Shown): (r: seq<byte>)
    ensures |r| == |bytes|
    ensures forall i | 0 <= i < |r| ::
      r[i] == if shown.All? || shown.lo <= i < shown.hi then bytes[i] else INVALID_OPCODE
  {
    if shown.All? then bytes
    else
      seq(|bytes|, i requires 0 <= i < |bytes| =>
            if shown.lo <= i < shown.hi then bytes[i] else INVALID_OPCODE)
  }

  function Recorded(pg: Page, m: seq<byte>, check: Check): Page {
    if check.Range? && check.from <= check.to <= |m| then Checked(pg, m, check.from, check.to) else pg
  }

  function AfterFetch(pg: Page, e: Fetched): Page {
    var pg1 := Recorded(if e.push then Register(pg) else pg, pg.visible, e.check);
    Permitted(pg1.(visible := Masked(pg.visible, e.shown)), e.permit)
  }

  lemma PermittedBytes(pg: Page, permit: Permit)
    ensures Permitted(pg, permit).visible == pg.visible && Permitted(pg, permit).masters == pg.masters
    ensures Permitted(pg, permit).vmWrite == pg.vmWrite && Permitted(pg, permit).checked == pg.checked
    ensures Permitted(pg, permit).checkDeny == (pg.checkDeny || !permit.NoPermit?)
    ensures Permitted(pg, permit).exeDeny == (pg.exeDeny && permit.NoPermit?)
    ensures permit.NoPermit? ==> Permitted(pg, permit) == pg
  {
  }

  // The bytes and the copies a first fetch leaves.
  lemma FetchedBytes(pg: Page, e: Fetched)
    ensures AfterFetch(pg, e).visible == Masked(pg.visible, e.shown)
    ensures AfterFetch(pg, e).masters == if e.push then [pg.visible] + pg.masters else pg.masters
  {
    hide Masked, Permitted;
    var pg1 := Recorded(if e.push then Register(pg) else pg, pg.visible, e.check);
    PermittedBytes(pg1.(visible := Masked(pg.visible, e.shown)), e.permit);
  }

  // The whole page is checked and left as it is.
  function WholeEffect(push: bool, v: bool): Fetched {
    if v then Fetched(push, All, Range(0, PAGE), PermitFirst) else Fetched(push, All, NoCheck, NoPermit)
  }

  // What the closing of zone start..end of n pages does to page p or p + 1.
  function CloseEffect(n: nat, start: nat, end: nat, v: bool, v2: bool, first: bool): Fetched
    requires 1 <= n <= MAX_PAGES
  {
    var kept := CloseEnd(end, n);
    if v && start < end then
      if first then Fetched(false, Only(start, Min(kept, PAGE)), Range(start, Min(end, PAGE)), PermitFirst)
      else Fetched(false, Only(0, Beyond(kept)), Range(0, Beyond(end)), PermitNext)
    else if first then WholeEffect(false, v && v2)
    else NOTHING
  }

  // How far the second page reaches to offset a.
  function Beyond(a: nat): nat { if a < PAGE then 0 else a - PAGE }

  // What the zone found does to page q.
  function ZoneEffect(s: State, p: nat, off: nat, n: nat, end: nat, v: bool, v2: bool, q: nat): Fetched
    requires StateShape(s) && p in s.pages && off < PAGE
    requires 1 <= n <= MAX_PAGES && off <= end <= n * PAGE && (n == 2 ==> p + 1 in s.pages)
  {
    if q != p && (n == 1 || q != p + 1) then NOTHING
    else if !Registrable(s.pages[p].visible) then (if q == p then WholeEffect(false, v) else NOTHING)
    else if n == 2 && !Registrable(s.pages[p + 1].visible) then (if q == p then WholeEffect(true, v) else NOTHING)
    else CloseEffect(n, ZoneStart(s, p, off), FixedEnd(off, end), v, v2, q == p).(push := true)
  }

  function FetchEffect(t: Tables, s: State, p: nat, off: nat, v: bool, v2: bool, q: nat): Fetched
    requires StateShape(s) && p in s.pages && off < PAGE
  {
    var z := FetchExtent(t, s.pages[p].visible, NextOf(s, p), off);
    if IsAddressZero(p, off) then NOTHING
    else if s.pages[p].checkDeny then (if q == p then Fetched(false, All, NoCheck, PermitFirst) else NOTHING)
    else if z.Undecodable? then (if q == p then WholeEffect(false, v) else NOTHING)
    else ZoneEffect(s, p, off, z.pages, z.end, v, v2, q)
  }

  // Page q of s' is what effect e makes of that of s.
  predicate Makes(s: State, s': State, q: nat, e: Fetched) {
    q in s.pages && q in s'.pages && s'.pages[q] == AfterFetch(s.pages[q], e)
  }

  lemma WholeMakes(s: State, p: nat, v: bool, q: nat)
    requires p in s.pages && PageShape(s.pages[p]) && q in s.pages
    ensures Makes(s, FetchWhole(s, p, v), q, if q == p then WholeEffect(false, v) else NOTHING)
  {
  }

  lemma WholeAfterZoneMakes(s: State, p: nat, n: nat, start: nat, end: nat, v: bool, q: nat)
    requires p in s.pages && PageShape(s.pages[p]) && n >= 1 && q in s.pages
    ensures Makes(s, FetchWholeAfterZone(s, p, n, start, end, v), q, if q == p then WholeEffect(false, v) else NOTHING)
  {
    hide FetchWhole, AfterFetch;
    var s1 := if Unaligned(start) then s.(partialStart := s.partialStart + {p}) else s;
    var s2 := if Unaligned(end) then s1.(partialEnd := s1.partialEnd + {p + n - 1}) else s1;
    WholeMakes(s2, p, v, q);
  }

  lemma CloseMakes(s: State, p: nat, start: nat, end: nat, v: bool, v2: bool, q: nat)
    requires StateShape(s) && p in s.pages && start < PAGE && start <= end <= PAGE && q in s.pages
    ensures Makes(s, FetchClose(s, p, start, end, v, v2), q,
                  if q == p then CloseEffect(1, start, end, v, v2, true) else NOTHING)
  {
    hide FetchWholeAfterZone, Checked, AllowFirst;
    var pg := s.pages[p];
    if v && end <= start {
      WholeAfterZoneMakes(s, p, 1, start, end, v2, q);
    } else if v {
      ClosedAsMasked(pg.visible, start, end);
      CheckedFrame(pg, pg.visible, start, end);
    }
  }

  lemma ClosedAsMasked(bytes: seq<byte>, start: nat, end: nat)
    requires IsPage(bytes) && end <= PAGE
    ensures CloseOuter(bytes, start, end, 1) == Masked(bytes, Only(start, Min(CloseEnd(end, 1), PAGE)))
  {
  }

  lemma HalvesAsMasked(a: seq<byte>, b: seq<byte>, start: nat, end: nat)
    requires IsPage(a) && IsPage(b) && start < PAGE
    ensures var c, kept := CloseOuter(a + b, start, end, 2), CloseEnd(end, 2);
      && c[..PAGE] == Masked(a, Only(start, Min(kept, PAGE))) && c[PAGE..] == Masked(b, Only(0, Beyond(kept)))
  {
    hide CloseEnd;
    var c := CloseOuter(a + b, start, end, 2);
    assert forall i | 0 <= i < PAGE :: c[..PAGE][i] == c[i] && c[PAGE..][i] == c[i + PAGE];
  }

  lemma Close2Makes(s: State, p: nat, start: nat, end: nat, v: bool, v2: bool, q: nat)
    requires StateShape(s) && p in s.pages && p + 1 in s.pages && q in s.pages
    requires start < PAGE && start <= end <= 2 * PAGE
    ensures Makes(s, FetchClose2(s, p, start, end, v, v2), q,
                  if q == p || q == p + 1 then CloseEffect(2, start, end, v, v2, q == p) else NOTHING)
  {
    hide FetchWholeAfterZone, Checked, CloseOuter, CloseEnd, Masked, AllowFirst, AllowNext;
    var pg, nx := s.pages[p], s.pages[p + 1];
    if v && end <= start {
      WholeAfterZoneMakes(s, p, 2, start, end, v2, q);
    } else if v {
      HalvesAsMasked(pg.visible, nx.visible, start, end);
      CheckedFrame(pg, pg.visible, start, Min(end, PAGE));
      CheckedFrame(nx, nx.visible, 0, Beyond(end));
    }
    AllIsMasked(s.pages[q].visible);
  }

  lemma AllIsMasked(bytes: seq<byte>)
    ensures Masked(bytes, All) == bytes
  {
  }

  // A page that is registered first.
  lemma PushMakes(s: State, s1: State, s': State, q: nat, e: Fetched)
    requires q in s.pages && Makes(s1, s', q, e) && s1.pages[q] == Register(s.pages[q]) && !e.push
    ensures Makes(s, s', q, e.(push := true))
  {
  }

  lemma OnePageMakes(s: State, p: nat, off: nat, end: nat, v: bool, v2: bool, q: nat)
    requires StateShape(s) && p in s.pages && off < PAGE && q in s.pages && off <= end <= PAGE
    ensures Makes(s, FetchZone(s, p, off, 1, end, v, v2), q, ZoneEffect(s, p, off, 1, end, v, v2, q))
  {
    hide Registrable, FetchWholeAfterZone, FetchClose, FetchClose2, PageShape, Register, AfterFetch, CloseEffect;
    hide WholeEffect;
    RegisterKeeps(s.pages[p]);
    var s1 := if off == 0 then Unflag(s, p) else s;
    var s2 := if end % PAGE == 0 then Unflag(s1, p) else s1;
    var start, last := ZoneStart(s2, p, off), FixedEnd(off, end);
    assert start == ZoneStart(s, p, off);
    WholeAfterZoneMakes(s2, p, 1, start, last, v, q);
    if Registrable(s.pages[p].visible) {
      var s3 := Put(s2, p, Register(s2.pages[p]));
      var s' := FetchClose(s3, p, start, last, v, v2);
      CloseMakes(s3, p, start, last, v, v2, q);
      CloseNoPush(1, start, last, v, v2, true);
      if q == p {
        PushMakes(s, s3, s', q, CloseEffect(1, start, last, v, v2, true));
      }
    }
  }

  lemma CloseNoPush(n: nat, start: nat, end: nat, v: bool, v2: bool, first: bool)
    requires 1 <= n <= MAX_PAGES
    ensures !CloseEffect(n, start, end, v, v2, first).push
    ensures !WholeEffect(false, v).push && WholeEffect(true, v) == WholeEffect(false, v).(push := true)
  {
  }

  lemma RegisterKeeps(pg: Page)
    requires PageShape(pg)
    ensures PageShape(Register(pg)) && IsPage(pg.visible) && Register(pg).visible == pg.visible
    ensures Register(pg).masters == [pg.visible] + pg.masters
  {
  }

  lemma TwoPageMakes(s: State, p: nat, off: nat, end: nat, v: bool, v2: bool, q: nat)
    requires StateShape(s) && p in s.pages && off < PAGE && q in s.pages && off <= end <= 2 * PAGE && p + 1 in s.pages
    ensures Makes(s, FetchZone(s, p, off, 2, end, v, v2), q, ZoneEffect(s, p, off, 2, end, v, v2, q))
  {
    hide Registrable, FetchWholeAfterZone, FetchClose, FetchClose2, PageShape, Register, AfterFetch, CloseEffect;
    hide WholeEffect;
    RegisterKeeps(s.pages[p]);
    RegisterKeeps(s.pages[p + 1]);
    var s1 := if off == 0 then Unflag(s, p) else s;
    var s2 := if end % PAGE == 0 then Unflag(s1, p + 1) else s1;
    var start, last := ZoneStart(s2, p, off), FixedEnd(off, end);
    assert start == ZoneStart(s, p, off);
    if !Registrable(s.pages[p].visible) {
      WholeAfterZoneMakes(s2, p, 2, start, last, v, q);
    } else {
      var s3 := Put(s2, p, Register(s2.pages[p]));
      if !Registrable(s.pages[p + 1].visible) {
        CloseNoPush(2, start, last, v, v2, q == p);
        var s' := FetchWholeAfterZone(s3, p, 2, start, last, v);
        WholeAfterZoneMakes(s3, p, 2, start, last, v, q);
        if q == p {
          PushMakes(s, s3, s', q, WholeEffect(false, v));
        }
      } else {
        TwoRegisteredMake(s, s3, p, start, last, v, v2, q);
      }
    }
  }

  lemma TwoRegisteredMake(s: State, s3: State, p: nat, start: nat, last: nat, v: bool, v2: bool, q: nat)
    requires StateShape(s) && StateShape(s3) && p in s.pages && p + 1 in s.pages && q in s.pages
    requires start < PAGE && start <= last <= 2 * PAGE && s3.pages == s.pages[p := Register(s.pages[p])]
    ensures StateShape(Put(s3, p + 1, Register(s3.pages[p + 1])))
    ensures Makes(s, FetchClose2(Put(s3, p + 1, Register(s3.pages[p + 1])), p, start, last, v, v2), q,
                  if q == p || q == p + 1 then CloseEffect(2, start, last, v, v2, q == p).(push := true) else NOTHING)
  {
    hide FetchClose2, Register, PageShape, AfterFetch, CloseEffect;
    RegisterKeeps(s.pages[p + 1]);
    var s4 := Put(s3, p + 1, Register(s3.pages[p + 1]));
    Close2Makes(s4, p, start, last, v, v2, q);
    CloseNoPush(2, start, last, v, v2, q == p);
    if q == p || q == p + 1 {
      PushMakes(s, s4, FetchClose2(s4, p, start, last, v, v2), q, CloseEffect(2, start, last, v, v2, q == p));
    }
  }

  lemma ZoneMakes(s: State, p: nat, off: nat, n: nat, end: nat, v: bool, v2: bool, q: nat)
    requires StateShape(s) && p in s.pages && off < PAGE && q in s.pages
    requires 1 <= n <= MAX_PAGES && off <= end <= n * PAGE && (n == 2 ==> p + 1 in s.pages)
    ensures Makes(s, FetchZone(s, p, off, n, end, v, v2), q, ZoneEffect(s, p, off, n, end, v, v2, q))
  {
    hide FetchZone, ZoneEffect, Makes;
    if n == 1 {
      OnePageMakes(s, p, off, end, v, v2, q);
    } else {
      TwoPageMakes(s, p, off, end, v, v2, q);
    }
  }

  // The flags a search sets are not those the zone's start depends on.
  lemma FlagIsNoEffect(s: State, c: Crossing, p: nat, off: nat, n: nat, end: nat, v: bool, v2: bool, q: nat)
    requires StateShape(s) && p in s.pages && off < PAGE
    requires 1 <= n <= MAX_PAGES && off <= end <= n * PAGE && (n == 2 ==> p + 1 in s.pages)
    ensures StateShape(Flag(s, c, p))
    ensures ZoneEffect(Flag(s, c, p), p, off, n, end, v, v2, q) == ZoneEffect(s, p, off, n, end, v, v2, q)
  {
    hide Registrable, CloseEffect;
  }

  /** What a first fetch of page p makes of every page. */
  lemma FetchMakes(t: Tables, s: State, p: nat, off: nat, v: bool, v2: bool, q: nat)
    requires StateShape(s) && p in s.pages && off < PAGE && q in s.pages
    ensures Makes(s, FetchStep(t, s, p, off, v, v2), q, FetchEffect(t, s, p, off, v, v2, q))
  {
    hide FetchExtent, FetchZone, FetchWhole, ZoneEffect, WholeEffect;
    var pg := s.pages[p];
    if !pg.checkDeny && !IsAddressZero(p, off) {
      match FetchExtent(t, pg.visible, NextOf(s, p), off)
      case Undecodable(c) => WholeMakes(FlagBoth(Flag(s, c, p), p), p, v, q);
      case Extent(n, end, c, _) =>
        ZoneMakes(Flag(s, c, p), p, off, n, end, v, v2, q);
        FlagIsNoEffect(s, c, p, off, n, end, v, v2, q);
    }
  }

  lemma FetchKeys(t: Tables, s: State, p: nat, off: nat, v: bool, v2: bool)
    requires StateShape(s) && p in s.pages && off < PAGE
    ensures FetchStep(t, s, p, off, v, v2).pages.Keys == s.pages.Keys
  {
    hide FetchExtent, FetchZone;
    if !IsAddressZero(p, off) && !s.pages[p].checkDeny {
      match FetchExtent(t, s.pages[p].visible, NextOf(s, p), off)
      case Undecodable(_) =>
      case Extent(n, end, c, _) => ZoneKeys(Flag(s, c, p), p, off, n, end, v, v2);
    }
  }

  lemma ZoneKeys(s: State, p: nat, off: nat, n: nat, end: nat, v: bool, v2: bool)
    requires StateShape(s) && p in s.pages && off < PAGE
    requires 1 <= n <= MAX_PAGES && off <= end <= n * PAGE && (n == 2 ==> p + 1 in s.pages)
    ensures FetchZone(s, p, off, n, end, v, v2).pages.Keys == s.pages.Keys
  {
    hide Registrable;
  }

  // ---------------------------------------------------------------- invalid-opcode trap

  // What the trap handler does to a registered page: it checks a part of the latest copy,
  // opens that part too, or checks the whole copy and gives it back.
  datatype Touch = Untouched | Inspected(lo: nat, hi: nat) | Unmasked(lo: nat, hi: nat) | GivenBack

  // enter: the page had no copy, and is registered and closed first.
  datatype TrapEffect = TrapEffect(enter: bool, touch: Touch, permit: Permit)

  function Touched(pg: Page, touch: Touch): Page
    requires PageShape(pg)
  {
    if pg.masters == [] then pg
    else
      MasterIsPage(pg);
      var m := pg.masters[0];
      match touch
      case Untouched => pg
      case Inspected(lo, hi) => Recorded(pg, m, Range(lo, hi))
      case Unmasked(lo, hi) => if lo <= hi <= PAGE then Open(Checked(pg, m, lo, hi), m, lo, hi) else pg
      case GivenBack => Checked(pg, m, 0, PAGE).(visible := m, masters := pg.masters[1..])
  }

  function AfterTrap(q: nat, pg: Page, e: TrapEffect): Page
    requires PageShape(pg)
  {
    Permitted(Touched(if e.enter then Entered(q, pg) else pg, e.touch), e.permit)
  }

  // The fallback, on the copy m.
  function WholeTouch(m: seq<byte>, at: nat, v: Verdicts): Touch
    requires IsPage(m)
  {
    if AllMaskedAt(m, at) || !v.page then Untouched
    else if v.pageOver then Inspected(0, PAGE)
    else GivenBack
  }

  // What the extent found does to the page of the trap, whose latest copy is m.
  function FirstTouch(z: TrapExtent, m: seq<byte>, off: nat, v: Verdicts): Touch
    requires IsPage(m) && off < PAGE
  {
    match z
    case GiveUp(_) => Untouched
    case WholePage(_, _, at) => WholeTouch(m, at, v)
    case Zone(_, e, _, _) =>
      var end := FixedEnd(off, e);
      if !v.zone then Untouched
      else if v.zoneOver then Inspected(off, Min(end, PAGE))
      else if end <= off then WholeTouch(m, off, v)
      else if m[off] == INVALID_OPCODE then Inspected(off, Min(end, PAGE))
      else Unmasked(off, Min(end, PAGE))
  }

  // What it does to the page after.
  function SecondTouch(z: TrapExtent, m: seq<byte>, off: nat, v: Verdicts): Touch
    requires IsPage(m) && off < PAGE
  {
    if !z.Zone? || z.pages != 2 || !v.zone then Untouched
    else if v.zoneOver || m[off] == INVALID_OPCODE then Inspected(0, Beyond(z.end))
    else Unmasked(0, Beyond(z.end))
  }

  // The handler reports success exactly then.
  predicate Handles(touch: Touch) { touch.Unmasked? || touch.GivenBack? }

  // Page q of s' is what the touch and the permit make of that of s.
  predicate Leaves(s: State, s': State, q: nat, touch: Touch, permit: Permit) {
    && q in s.pages && q in s'.pages && PageShape(s.pages[q])
    && s'.pages[q] == Permitted(Touched(s.pages[q], touch), permit)
  }

  function ExitPermit(p: nat, n: nat, x: Exit, q: nat): Permit {
    if (q == p && x.first) || (q == p + 1 && n == 2 && x.second) then PermitLate(x.vmaWrite) else NoPermit
  }

  lemma ExitLeaves(s: State, p: nat, n: nat, x: Exit, q: nat)
    requires p in s.pages && q in s.pages && PageShape(s.pages[q]) && (n == 2 && x.second ==> p + 1 in s.pages)
    ensures Leaves(s, TrapExit(s, p, n, x).state, q, Untouched, ExitPermit(p, n, x, q))
  {
  }

  // One touch, and then the exit.
  lemma TouchThenExit(s: State, s1: State, p: nat, n: nat, x: Exit, q: nat, touch: Touch)
    requires p in s1.pages && q in s1.pages && PageShape(s1.pages[q]) && (n == 2 && x.second ==> p + 1 in s1.pages)
    requires Leaves(s, s1, q, touch, NoPermit)
    ensures Leaves(s, TrapExit(s1, p, n, x).state, q, touch, ExitPermit(p, n, x, q))
  {
    hide TrapExit, AllowTrapped, ExitPermit;
    ExitLeaves(s1, p, n, x, q);
  }

  lemma GivenBackLeaves(s: State, p: nat, q: nat)
    requires StateShape(s) && p in s.pages && s.pages[p].masters != [] && q in s.pages
    requires IsPage(s.pages[p].masters[0])
    ensures var pg := s.pages[p];
      var s1 := FlagBoth(Put(s, p, Checked(pg, pg.masters[0], 0, PAGE).(
        visible := pg.masters[0], masters := pg.masters[1..])), p);
      && s1.pages.Keys == s.pages.Keys && PageShape(s1.pages[q])
      && Leaves(s, s1, q, if q == p then GivenBack else Untouched, NoPermit)
  {
    var pg := s.pages[p];
    assert forall k | k in pg.masters[1..] :: k in pg.masters;
    if q == p {
      assert Touched(pg, GivenBack)
        == Checked(pg, pg.masters[0], 0, PAGE).(visible := pg.masters[0], masters := pg.masters[1..]);
    }
  }

  lemma WholeLeaves(s: State, p: nat, at: nat, n: nat, x: Exit, v: Verdicts, q: nat)
    requires StateShape(s) && p in s.pages && s.pages[p].masters != [] && q in s.pages
    requires IsPage(s.pages[p].masters[0]) && (n == 2 && x.second ==> p + 1 in s.pages)
    ensures var r, touch := TrapWhole(s, p, at, n, x, v), WholeTouch(s.pages[p].masters[0], at, v);
      && r.handled == Handles(touch) && r.state.pages.Keys == s.pages.Keys
      && Leaves(s, r.state, q, if q == p then touch else Untouched,
                if r.handled then ExitPermit(p, n, x, q) else NoPermit)
  {
    hide TrapExit, AllMaskedAt, Checked, ExitPermit, AllowTrapped;
    var pg := s.pages[p];
    var m := pg.masters[0];
    if !AllMaskedAt(m, at) && v.page && !v.pageOver {
      var s1 := FlagBoth(Put(s, p, Checked(pg, m, 0, PAGE).(visible := m, masters := pg.masters[1..])), p);
      GivenBackLeaves(s, p, q);
      ExitKeys(s1, p, n, x);
      TouchThenExit(s, s1, p, n, x, q, if q == p then GivenBack else Untouched);
    }
  }

  lemma ExitKeys(s: State, p: nat, n: nat, x: Exit)
    requires p in s.pages && (n == 2 && x.second ==> p + 1 in s.pages)
    ensures TrapExit(s, p, n, x).state.pages.Keys == s.pages.Keys && TrapExit(s, p, n, x).handled
  {
  }

  lemma CheckedNothing(pg: Page, m: seq<byte>, k: nat)
    requires k <= |m|
    ensures Checked(pg, m, k, k) == pg
  {
    assert Checked(pg, m, k, k).checked == pg.checked;
  }

  // What the zone found does to page q.
  function ZoneTouch(z: TrapExtent, m: seq<byte>, off: nat, v: Verdicts, p: nat, q: nat): Touch
    requires IsPage(m) && off < PAGE
  {
    if q == p then FirstTouch(z, m, off, v) else if q == p + 1 then SecondTouch(z, m, off, v) else Untouched
  }

  lemma InspectedLeaves(s: State, p: nat, off: nat, n: nat, end: nat, m: seq<byte>, m': seq<byte>, q: nat)
    requires StateShape(s) && p in s.pages && s.pages[p].masters != [] && s.pages[p].masters[0] == m && IsPage(m)
    requires 1 <= n <= 2 && off < PAGE && off <= end <= n * PAGE && q in s.pages
    requires n == 2 ==> p + 1 in s.pages && IsPage(m') && end >= PAGE
    requires n == 2 ==> s.pages[p + 1].masters != [] && s.pages[p + 1].masters[0] == m'
    ensures var s1 := Put(s, p, Checked(s.pages[p], m, off, Min(end, PAGE)));
      var s2 := if n == 2 then Put(s1, p + 1, Checked(s1.pages[p + 1], m', 0, end - PAGE)) else s1;
      && s2.pages.Keys == s.pages.Keys && PageShape(s2.pages[q])
      && Leaves(s, s2, q, if q == p then Inspected(off, Min(end, PAGE))
                          else if q == p + 1 && n == 2 then Inspected(0, Beyond(end)) else Untouched, NoPermit)
  {
    hide Checked;
    CheckedFrame(s.pages[p], m, off, Min(end, PAGE));
    if n == 2 {
      CheckedFrame(s.pages[p + 1], m', 0, end - PAGE);
    }
  }

  lemma UnmaskedLeaves(s: State, p: nat, off: nat, n: nat, end: nat, m: seq<byte>, m': seq<byte>, q: nat)
    requires StateShape(s) && p in s.pages && s.pages[p].masters != [] && s.pages[p].masters[0] == m && IsPage(m)
    requires 1 <= n <= 2 && off < PAGE && off <= end <= n * PAGE && q in s.pages
    requires n == 2 ==> p + 1 in s.pages && IsPage(m') && end >= PAGE
    requires n == 2 ==> s.pages[p + 1].masters != [] && s.pages[p + 1].masters[0] == m'
    ensures var hi := Min(end, PAGE);
      var s1 := Put(s, p, Checked(s.pages[p], m, off, hi));
      var s2 := if n == 2 then Put(s1, p + 1, Checked(s1.pages[p + 1], m', 0, end - PAGE)) else s1;
      && |s2.pages[p].visible| == PAGE && (n == 2 ==> |s2.pages[p + 1].visible| == PAGE)
      && var s3 := Put(s2, p, Open(s2.pages[p], m, off, hi));
         var s4 := if n == 2 then Put(s3, p + 1, Open(s3.pages[p + 1], m', 0, end - PAGE)) else s3;
         && s4.pages.Keys == s.pages.Keys && PageShape(s4.pages[q])
         && Leaves(s, s4, q, if q == p then Unmasked(off, hi)
                             else if q == p + 1 && n == 2 then Unmasked(0, Beyond(end)) else Untouched, NoPermit)
  {
    hide Checked, Opened;
    OpenedShape(s.pages[p], m, off, Min(end, PAGE));
    if n == 2 {
      OpenedShape(s.pages[p + 1], m', 0, end - PAGE);
    }
  }

  lemma OpenedShape(pg: Page, m: seq<byte>, lo: nat, hi: nat)
    requires PageShape(pg) && IsPage(m) && lo <= hi <= PAGE
    ensures PageShape(Checked(pg, m, lo, hi)) && PageShape(Open(Checked(pg, m, lo, hi), m, lo, hi))
  {
  }

  lemma ZoneLeaves(s: State, p: nat, off: nat, z: TrapExtent, m: seq<byte>, m': seq<byte>,
                   x: Exit, v: Verdicts, q: nat)
    requires StateShape(s) && p in s.pages && s.pages[p].masters != [] && s.pages[p].masters[0] == m && IsPage(m)
    requires z.Zone? && 1 <= z.pages <= 2 && off < PAGE && off <= z.end <= z.pages * PAGE && q in s.pages
    requires z.pages == 2 ==> p + 1 in s.pages && IsPage(m') && z.end >= PAGE
    requires z.pages == 2 ==> s.pages[p + 1].masters != [] && s.pages[p + 1].masters[0] == m'
    requires x.second ==> p + 1 in s.pages
    ensures var r := TrapZone(s, p, off, z.pages, FixedEnd(off, z.end), m, m', x, v);
      && r.handled == Handles(FirstTouch(z, m, off, v)) && r.state.pages.Keys == s.pages.Keys
      && Leaves(s, r.state, q, ZoneTouch(z, m, off, v, p, q),
                if r.handled then ExitPermit(p, z.pages, x, q) else NoPermit)
  {
    hide TrapWhole, WholeTouch, TrapExit, Checked, Open, ExitPermit, Leaves, PageShape;
    var n, end := z.pages, FixedEnd(off, z.end);
    var hi := Min(end, PAGE);
    var s1 := Put(s, p, Checked(s.pages[p], m, off, hi));
    var s2 := if n == 2 then Put(s1, p + 1, Checked(s1.pages[p + 1], m', 0, end - PAGE)) else s1;
    SameLeaves(s, q);
    InspectedLeaves(s, p, off, n, end, m, m', q);
    if v.zone && !v.zoneOver {
      if end <= off {
        CheckedNothing(s.pages[p], m, off);
        assert s2 == s;
        WholeLeaves(s, p, off, n, x, v, q);
      } else if m[off] != INVALID_OPCODE {
        UnmaskedLeaves(s, p, off, n, end, m, m', q);
        var s3 := Put(s2, p, Open(s2.pages[p], m, off, hi));
        var s4 := if n == 2 then Put(s3, p + 1, Open(s3.pages[p + 1], m', 0, end - PAGE)) else s3;
        ExitKeys(s4, p, n, x);
        TouchThenExit(s, s4, p, n, x, q, ZoneTouch(z, m, off, v, p, q));
      }
    }
  }

  lemma SameLeaves(s: State, q: nat)
    requires q in s.pages && PageShape(s.pages[q])
    ensures Leaves(s, s, q, Untouched, NoPermit)
  {
  }

  lemma ActLeaves(s: State, p: nat, off: nat, z: TrapExtent, m': seq<byte>, x: Exit, v: Verdicts, q: nat)
    requires StateShape(s) && p in s.pages && off < PAGE && s.pages[p].masters != [] && q in s.pages
    requires IsPage(s.pages[p].masters[0]) && (x.second ==> p + 1 in s.pages)
    requires z.Zone? ==> 1 <= z.pages <= MAX_PAGES && off <= z.end <= z.pages * PAGE
    requires z.Zone? && z.pages == 2 ==> p + 1 in s.pages && IsPage(m') && z.end >= PAGE
    requires z.Zone? && z.pages == 2 ==> s.pages[p + 1].masters != [] && s.pages[p + 1].masters[0] == m'
    ensures var r, m := TrapAct(s, p, off, z, m', x, v), s.pages[p].masters[0];
      && r.handled == Handles(FirstTouch(z, m, off, v)) && r.state.pages.Keys == s.pages.Keys
      && Leaves(s, r.state, q, ZoneTouch(z, m, off, v, p, q),
                if r.handled && !z.GiveUp? then ExitPermit(p, z.pages, x, q) else NoPermit)
  {
    hide TrapWhole, TrapZone, WholeTouch, ExitPermit, Leaves;
    var s1, m := Flag(s, z.crossing, p), s.pages[p].masters[0];
    SameLeaves(s, q);
    FlagLeaves(s, s1, q);
    match z
    case GiveUp(c) =>
    case WholePage(n, c, at) =>
      WholeLeaves(s1, p, at, n, x, v, q);
      FlagThenLeaves(s, s1, TrapWhole(s1, p, at, n, x, v).state, q);
    case Zone(n, end, c, _) =>
      ZoneLeaves(s1, p, off, z, m, m', x, v, q);
      FlagThenLeaves(s, s1, TrapZone(s1, p, off, n, FixedEnd(off, end), m, m', x, v).state, q);
  }

  lemma FlagLeaves(s: State, s1: State, q: nat)
    requires q in s.pages && PageShape(s.pages[q]) && s1.pages == s.pages
    ensures Leaves(s, s1, q, Untouched, NoPermit)
  {
  }

  lemma FlagThenLeaves(s: State, s1: State, s': State, q: nat)
    requires s1.pages == s.pages
    ensures forall touch, permit | Leaves(s1, s', q, touch, permit) :: Leaves(s, s', q, touch, permit)
  {
  }

  // What the search finds from the page of the trap, registered if it was not.
  function TrapFinds(t: Tables, s: State, p: nat, off: nat, vma: Vma): (z: TrapExtent)
    requires StateShape(s) && p in s.pages && off < PAGE && TrapReady(t, s, p, off, vma)
    requires TrapPageUsable(s.pages[p]) && !IsAddressZero(p, off)
  {
    AfterShape(s, p, vma);
    var pg := TrapPage(p, s.pages[p]);
    MasterIsPage(pg);
    TrapSearch(t, pg.masters[0], pg.visible, off, AfterOf(s, p, vma))
  }

  lemma AfterShape(s: State, p: nat, vma: Vma)
    requires StateShape(s)
    ensures AfterOf(s, p, vma).Usable? ==>
      p + 1 in s.pages && IsPage(AfterOf(s, p, vma).master) && IsPage(AfterOf(s, p, vma).visible)
  {
    if p + 1 in s.pages && s.pages[p + 1].masters != [] {
      MasterIsPage(s.pages[p + 1]);
    }
  }

  // The search runs into the page after, and registers it.
  predicate EntersNext(t: Tables, s: State, p: nat, off: nat, vma: Vma)
    requires StateShape(s) && p in s.pages && off < PAGE && TrapPageUsable(s.pages[p])
  {
    var pg := TrapPage(p, s.pages[p]);
    MasterIsPage(pg);
    Reaches(t, pg.masters[0], pg.visible, off) && AfterOf(s, p, vma).Usable? && s.pages[p + 1].masters == []
  }

  const NO_TRAP := TrapEffect(false, Untouched, NoPermit)

  // The write permission of the VMA the handler looked up last.
  function LastVma(t: Tables, s: State, p: nat, off: nat, vma: Vma): bool
    requires StateShape(s) && p in s.pages && off < PAGE && TrapPageUsable(s.pages[p])
  {
    var pg := TrapPage(p, s.pages[p]);
    MasterIsPage(pg);
    if Reaches(t, pg.masters[0], pg.visible, off) then LookedUp(s, p, vma) else s.pages[p].vmWrite
  }

  function TrapEffectOn(t: Tables, s: State, p: nat, off: nat, vma: Vma, v: Verdicts, q: nat): TrapEffect
    requires StateShape(s) && p in s.pages && off < PAGE && TrapReady(t, s, p, off, vma)
  {
    if IsAddressZero(p, off) || !TrapPageUsable(s.pages[p]) then NO_TRAP
    else
      var pg, z := TrapPage(p, s.pages[p]), TrapFinds(t, s, p, off, vma);
      MasterIsPage(pg);
      var touch := ZoneTouch(z, pg.masters[0], off, v, p, q);
      var handled := Handles(FirstTouch(z, pg.masters[0], off, v)) && !z.GiveUp?;
      var enter := if q == p then s.pages[p].masters == [] else q == p + 1 && EntersNext(t, s, p, off, vma);
      var permitted := enter && handled && (q == p || z.pages == 2);
      TrapEffect(enter, touch, if permitted then PermitLate(LastVma(t, s, p, off, vma)) else NoPermit)
  }

  predicate TrapHandled(t: Tables, s: State, p: nat, off: nat, vma: Vma, v: Verdicts)
    requires StateShape(s) && p in s.pages && off < PAGE && TrapReady(t, s, p, off, vma)
  {
    && !IsAddressZero(p, off) && TrapPageUsable(s.pages[p])
    && var pg := TrapPage(p, s.pages[p]);
       MasterIsPage(pg);
       Handles(FirstTouch(TrapFinds(t, s, p, off, vma), pg.masters[0], off, v))
  }

  // The copy the search reads in the second page is the latest one once the page is entered.
  lemma AfterIsMaster(s: State, p: nat, vma: Vma)
    requires StateShape(s)
    ensures AfterOf(s, p, vma).Usable? ==>
      p + 1 in s.pages && EnterNext(s, p).pages[p + 1].masters != []
      && EnterNext(s, p).pages[p + 1].masters[0] == AfterOf(s, p, vma).master
    ensures AfterOf(s, p, vma).Usable? && s.pages[p + 1].masters == [] ==>
      EnterNext(s, p) == Put(s, p + 1, Entered(p + 1, s.pages[p + 1]))
    ensures !(AfterOf(s, p, vma).Usable? && s.pages[p + 1].masters == []) ==> EnterNext(s, p) == s
  {
    hide Registrable;
  }

  lemma EnteredKeeps(q: nat, pg: Page)
    ensures Entered(q, pg).masters == [pg.visible] + pg.masters
    ensures Entered(q, pg).(visible := pg.visible, masters := pg.masters) == pg
  {
  }

  // The search has registered page p, and entered the next one if it reached it.
  lemma EnteredState(s: State, p: nat, pg: Page, vma: Vma, reaches: bool)
    requires StateShape(s) && p in s.pages && PageShape(pg)
    ensures var s1, after := Put(s, p, pg), AfterOf(s, p, vma);
      var s2 := if reaches then EnterNext(s1, p) else s1;
      var second := reaches && after.Usable? && s.pages[p + 1].masters == [];
      && AfterOf(s1, p, vma) == after && s2.pages.Keys == s.pages.Keys && StateShape(s2) && s2.pages[p] == pg
      && (forall q | q in s.pages && q != p ::
            s2.pages[q] == if q == p + 1 && second then Entered(q, s.pages[q]) else s.pages[q])
      && (reaches && after.Usable? ==> s2.pages[p + 1].masters != [] && s2.pages[p + 1].masters[0] == after.master)
  {
    hide Registrable, Entered, EnterNext;
    var s1 := Put(s, p, pg);
    AfterIsMaster(s1, p, vma);
    assert AfterOf(s1, p, vma) == AfterOf(s, p, vma);
  }

  // What the handler looks up, once the page of the trap is registered.
  lemma TrapLooksUp(t: Tables, s: State, p: nat, off: nat, vma: Vma)
    requires StateShape(s) && p in s.pages && off < PAGE && TrapReady(t, s, p, off, vma)
    requires TrapPageUsable(s.pages[p]) && !IsAddressZero(p, off)
    ensures var s1, pg := Put(s, p, TrapPage(p, s.pages[p])), TrapPage(p, s.pages[p]);
      && IsPage(pg.masters[0]) && AfterOf(s1, p, vma) == AfterOf(s, p, vma)
      && var reaches := Reaches(t, pg.masters[0], pg.visible, off);
         && LastVma(t, s, p, off, vma) == if reaches then LookedUp(s1, p, vma) else pg.vmWrite
  {
    hide Reaches, Registrable, Entered, TrapReady;
    EnteredKeeps(p, s.pages[p]);
    MasterIsPage(TrapPage(p, s.pages[p]));
  }

  // The state the handler acts on: the page of the trap registered, and the next one entered.
  function ActState(t: Tables, s: State, p: nat, off: nat, vma: Vma): State
    requires StateShape(s) && p in s.pages && off < PAGE && TrapPageUsable(s.pages[p])
  {
    var pg := TrapPage(p, s.pages[p]);
    MasterIsPage(pg);
    if Reaches(t, pg.masters[0], pg.visible, off) then EnterNext(Put(s, p, pg), p) else Put(s, p, pg)
  }

  function ActExit(t: Tables, s: State, p: nat, off: nat, vma: Vma): Exit
    requires StateShape(s) && p in s.pages && off < PAGE && TrapPageUsable(s.pages[p])
  {
    Exit(s.pages[p].masters == [], EntersNext(t, s, p, off, vma), LastVma(t, s, p, off, vma))
  }

  function ActMaster(s: State, p: nat, vma: Vma): seq<byte>
    requires StateShape(s)
  {
    if AfterOf(s, p, vma).Usable? then AfterOf(s, p, vma).master else []
  }

  lemma ActStateShape(t: Tables, s: State, p: nat, off: nat, vma: Vma)
    requires StateShape(s) && p in s.pages && off < PAGE && TrapReady(t, s, p, off, vma)
    requires TrapPageUsable(s.pages[p]) && !IsAddressZero(p, off)
    ensures var s2, second := ActState(t, s, p, off, vma), EntersNext(t, s, p, off, vma);
      && s2.pages.Keys == s.pages.Keys && StateShape(s2) && s2.pages[p] == TrapPage(p, s.pages[p])
      && (second ==> p + 1 in s.pages)
      && (forall q | q in s.pages && q != p ::
            s2.pages[q] == if q == p + 1 && second then Entered(q, s.pages[q]) else s.pages[q])
      && var z, m' := TrapFinds(t, s, p, off, vma), ActMaster(s, p, vma);
         && (z.Zone? ==> 1 <= z.pages <= MAX_PAGES && off <= z.end <= z.pages * PAGE)
         && (z.Zone? && z.pages == 2 ==> p + 1 in s.pages && IsPage(m') && z.end >= PAGE)
         && (z.Zone? && z.pages == 2 ==> s2.pages[p + 1].masters != [] && s2.pages[p + 1].masters[0] == m')
  {
    hide Reaches, Registrable, Stitchable, Entered, SecondPage, Scan, AfterOf, EnterNext;
    var pg := TrapPage(p, s.pages[p]);
    MasterIsPage(pg);
    AfterShape(s, p, vma);
    EnteredState(s, p, pg, vma, Reaches(t, pg.masters[0], pg.visible, off));
    TwoPagesReach(t, pg.masters[0], pg.visible, off, AfterOf(s, p, vma));
  }

  lemma TrapActs(t: Tables, s: State, p: nat, off: nat, vma: Vma, v: Verdicts)
    requires StateShape(s) && p in s.pages && off < PAGE && TrapReady(t, s, p, off, vma)
    requires TrapPageUsable(s.pages[p]) && !IsAddressZero(p, off)
    ensures var s2, z, m' := ActState(t, s, p, off, vma), TrapFinds(t, s, p, off, vma), ActMaster(s, p, vma);
      && StateShape(s2) && p in s2.pages && s2.pages[p].masters != []
      && (EntersNext(t, s, p, off, vma) ==> p + 1 in s2.pages)
      && (z.Zone? ==> 1 <= z.pages <= MAX_PAGES && off <= z.end <= z.pages * PAGE)
      && (z.Zone? && z.pages == 2 ==> p + 1 in s2.pages && IsPage(m') && z.end >= PAGE)
      && TrapStep(t, s, p, off, vma, v) == TrapAct(s2, p, off, z, m', ActExit(t, s, p, off, vma), v)
  {
    hide TrapAct, Reaches, Registrable, Stitchable, Entered, AfterOf, EnterNext, LookedUp, LastVma, TrapSearch;
    ActStateShape(t, s, p, off, vma);
    TrapLooksUp(t, s, p, off, vma);
    AfterShape(s, p, vma);
  }

  /** What a trap at page p makes of every page, and when it is reported as handled. */
  lemma TrapMakes(t: Tables, s: State, p: nat, off: nat, vma: Vma, v: Verdicts, q: nat)
    requires StateShape(s) && p in s.pages && off < PAGE && TrapReady(t, s, p, off, vma) && q in s.pages
    ensures var r := TrapStep(t, s, p, off, vma, v);
      && r.handled == TrapHandled(t, s, p, off, vma, v) && r.state.pages.Keys == s.pages.Keys
      && r.state.pages[q] == AfterTrap(q, s.pages[q], TrapEffectOn(t, s, p, off, vma, v, q))
  {
    hide TrapAct, TrapFinds, EntersNext, LastVma, Entered, FirstTouch, SecondTouch, Registrable, Stitchable;
    hide ActState, TrapReady, Trapped;
    if IsAddressZero(p, off) || !TrapPageUsable(s.pages[p]) {
      SameLeaves(s, q);
    } else {
      var s2, x, z := ActState(t, s, p, off, vma), ActExit(t, s, p, off, vma), TrapFinds(t, s, p, off, vma);
      TrapActs(t, s, p, off, vma, v);
      ActStateShape(t, s, p, off, vma);
      MasterIsPage(s2.pages[p]);
      ActLeaves(s2, p, off, z, ActMaster(s, p, vma), x, v, q);
    }
  }

  // ---------------------------------------------------------------- every event

  /** What page q is after the event e. */
  function EventPage(t: Tables, s: State, e: Event, q: nat): Page
    requires StateShape(s) && Enabled(t, s, e) && q in s.pages
  {
    var pg := s.pages[q];
    match e
    case Mmap(_, _, _, _) => pg
    case Fetch(p, off, v, v2) => AfterFetch(pg, FetchEffect(t, s, p, off, v, v2, q))
    case Trap(p, off, vma, v) => AfterTrap(q, pg, TrapEffectOn(t, s, p, off, vma, v, q))
    case UserWrite(p, bytes) => if q == p then pg.(visible := bytes) else pg
    case WriteFault(p, off, kw) =>
      if q != p then pg else if IsAddressZero(p, off) then Unhandled(pg, kw) else WriteFaulted(pg, kw)
    case Materialise(p, off, kw) =>
      if q != p then pg else if IsAddressZero(p, off) then Unhandled(pg, kw) else Materialised(pg, kw)
    case Mprotect(p, vmWrite) => if q == p then Protected(pg, vmWrite) else pg
  }

  /** Every event, page by page.  A page is only added by its mapping. */
  lemma StepMakes(t: Tables, s: State, e: Event, q: nat)
    requires StateShape(s) && Enabled(t, s, e)
    ensures q in Step(t, s, e).pages <==> q in s.pages || (e.Mmap? && q == e.p)
    ensures q in s.pages ==> Step(t, s, e).pages[q] == EventPage(t, s, e, q)
    ensures e.Mmap? && q == e.p ==> Step(t, s, e).pages[q] == Mapped(e.bytes, e.vmWrite, e.kernelWrite)
  {
    hide FetchStep, TrapStep, TrapReady, AfterFetch, AfterTrap, FetchEffect, TrapEffectOn;
    match e
    case Fetch(p, off, v, v2) =>
      FetchKeys(t, s, p, off, v, v2);
      if q in s.pages {
        FetchMakes(t, s, p, off, v, v2, q);
      }
    case Trap(p, off, vma, v) =>
      TrapMakes(t, s, p, off, vma, v, p);
      if q in s.pages {
        TrapMakes(t, s, p, off, vma, v, q);
      }
    case _ =>
  }
}
