/**
 The cross-page integrity table: which instructions that span two pages it protects
 when one of the pages is fetched again.
 */
module PageCrossing {
  import opened Ld
  import opened Decoder
  import opened Scanner
  import opened ZoneSearch
  import opened PageMachine
  import opened PageEffects
  import opened PageAccess

  /** The first page of a zone that ends inside an instruction is flagged as such, and
      the flag survives the fetch if and only if the fetch was not at the first byte:
      there sig_handler drops every flag of the page, the new one too.  (At address zero it
      does nothing.) */
  lemma EndFlagKeptExactly(t: Tables, s: State, p: nat, off: nat, v2: bool)
    requires StateShape(s) && p in s.pages && off < PAGE && !s.pages[p].checkDeny
    requires var z := FetchExtent(t, s.pages[p].visible, NextOf(s, p), off);
      z.Extent? && z.crossing.first && (z.pages == 2 ==> Registrable(s.pages[p + 1].visible))
    requires Registrable(s.pages[p].visible)
    ensures if IsAddressZero(p, off) then FetchStep(t, s, p, off, true, v2) == s
      else p in FetchStep(t, s, p, off, true, v2).partialEnd <==> off != 0
  {
    hide FetchExtent, Registrable, CloseOuter, Checked, AllowFirst, AllowNext, Scan;
    var z := FetchExtent(t, s.pages[p].visible, NextOf(s, p), off);
    FlaggedZoneIsNotEmpty(t, s.pages[p].visible, NextOf(s, p), off);
    if !IsAddressZero(p, off) {
      assert FetchStep(t, s, p, off, true, v2) == FetchZone(Flag(s, z.crossing, p), p, off, z.pages, z.end, true, v2);
      ZoneFlags(Flag(s, z.crossing, p), p, off, z.pages, z.end, v2);
    }
  }

  lemma FlaggedZoneIsNotEmpty(t: Tables, page: seq<byte>, next: Next, off: nat)
    requires IsPage(page) && (next.Next? ==> IsPage(next.bytes)) && off < PAGE
    ensures var z := FetchExtent(t, page, next, off);
      z.Extent? && z.crossing.first ==> off < FixedEnd(off, z.end) && (z.pages == 1 ==> Unaligned(z.end))
  {
    hide Scan, Add;
  }

  // What FetchZone leaves of the flags when the zone is accepted.
  lemma ZoneFlags(s: State, p: nat, off: nat, n: nat, end: nat, v2: bool)
    requires StateShape(s) && p in s.pages && off < PAGE
    requires 1 <= n <= MAX_PAGES && off <= end <= n * PAGE && (n == 2 ==> p + 1 in s.pages)
    requires Registrable(s.pages[p].visible) && (n == 2 ==> Registrable(s.pages[p + 1].visible))
    requires off < FixedEnd(off, end) && (n == 1 ==> Unaligned(end))
    ensures var r := FetchZone(s, p, off, n, end, true, v2);
      p in r.partialEnd <==> p in s.partialEnd && off != 0
  {
    hide Registrable, CloseOuter, Checked, AllowFirst, AllowNext, FetchWholeAfterZone;
  }

  // The page before ends inside an instruction.
  predicate Continues(s: State, p: nat) { p > 0 && p - 1 in s.partialEnd }

  /** The bytes of a page before the fetched one are left alone if and only if the fetch
      does not close the page, or the page before it is flagged to end inside an instruction
      and the zone is not one page with an aligned end, or there is nothing left to mask. */
  lemma HeadKeptExactly(t: Tables, s: State, p: nat, off: nat, v: bool, v2: bool)
    requires StateShape(s) && p in s.pages && off < PAGE
    ensures p in FetchStep(t, s, p, off, v, v2).pages
    ensures var was, now := s.pages[p].visible, FetchStep(t, s, p, off, v, v2).pages[p].visible;
      var z := FetchExtent(t, was, NextOf(s, p), off);
      |now| == PAGE
      && ((forall i | 0 <= i < off :: now[i] == was[i]) <==>
            || FetchEffect(t, s, p, off, v, v2, p).shown.All?
            || (Continues(s, p) && !(z.Extent? && z.pages == 1 && FixedEnd(off, z.end) % PAGE == 0))
            || forall i | 0 <= i < off :: was[i] == INVALID_OPCODE)
  {
    hide FetchStep, FetchExtent, Registrable, FetchEffect, AfterFetch;
    FetchMakes(t, s, p, off, v, v2, p);
    FetchedBytes(s.pages[p], FetchEffect(t, s, p, off, v, v2, p));
    if FetchEffect(t, s, p, off, v, v2, p).shown.Only? {
      HeadBounds(t, s, p, off, v, v2);
    }
  }

  // Where the closed page stays open.
  lemma HeadBounds(t: Tables, s: State, p: nat, off: nat, v: bool, v2: bool)
    requires StateShape(s) && p in s.pages && off < PAGE && FetchEffect(t, s, p, off, v, v2, p).shown.Only?
    ensures var z := FetchExtent(t, s.pages[p].visible, NextOf(s, p), off);
      var d := FetchEffect(t, s, p, off, v, v2, p).shown;
      && z.Extent? && d.lo == (if Continues(s, p) then 0 else off)
      && if z.pages == 1 && FixedEnd(off, z.end) % PAGE == 0 then d.hi == 0 else d.hi >= off
  {
    hide FetchExtent, Registrable;
  }

  // ---------------------------------------------------------------- the table

  // {q} if the condition holds.
  function If(c: bool, q: nat): set<nat> { if c then {q} else {} }

  /** The flags after a fetch whose zone is registered: those the search found, the end of a
      page and the start of the next one, and of all flags none of page p if it is fetched at
      its first byte, and none of the last page if the search ended at a boundary. */
  lemma FlagsAfterZone(t: Tables, s: State, p: nat, off: nat, v: bool, v2: bool, start: nat, end: nat)
    requires StateShape(s) && p in s.pages && off < PAGE
    requires var z := FetchExtent(t, s.pages[p].visible, NextOf(s, p), off);
      Registers(t, s, p, off, z) && ZoneOf(s, p, off, z, start, end) && start < end
    ensures var z, r := FetchExtent(t, s.pages[p].visible, NextOf(s, p), off), FetchStep(t, s, p, off, v, v2);
      var dropped := If(off == 0, p) + If(z.end % 4096 == 0, p + z.pages - 1);
      && r.partialEnd == s.partialEnd + If(z.crossing.first, p) + If(z.crossing.second, p + 1) - dropped
      && r.partialStart == s.partialStart + If(z.crossing.first, p + 1) + If(z.crossing.second, p + 2) - dropped
  {
    hide FetchExtent, Registrable, CloseOuter, Checked, AllowFirst, AllowNext, FetchZone;
    var z := FetchExtent(t, s.pages[p].visible, NextOf(s, p), off);
    FlagsAfterSearch(s, z.crossing, p);
    ZoneTable(Flag(s, z.crossing, p), p, off, z.pages, z.end, v, v2, start, end);
  }

  lemma FlagsAfterSearch(s: State, c: Crossing, p: nat)
    ensures var s' := Flag(s, c, p);
      && s'.pages == s.pages && (p > 0 ==> (p - 1 in s'.partialEnd <==> p - 1 in s.partialEnd))
      && s'.partialEnd == s.partialEnd + If(c.first, p) + If(c.second, p + 1)
      && s'.partialStart == s.partialStart + If(c.first, p + 1) + If(c.second, p + 2)
  {
  }

  lemma ZoneTable(s: State, p: nat, off: nat, n: nat, zend: nat, v: bool, v2: bool, start: nat, end: nat)
    requires StateShape(s) && p in s.pages && off < PAGE
    requires 1 <= n <= MAX_PAGES && off <= zend <= n * PAGE && (n == 2 ==> p + 1 in s.pages)
    requires Registrable(s.pages[p].visible) && (n == 2 ==> Registrable(s.pages[p + 1].visible))
    requires start == (if p > 0 && p - 1 in s.partialEnd then 0 else off) && start < end
    requires if zend != off then end == zend else off <= end < off + 4096 && end % 4096 == 0
    ensures var r, dropped := FetchZone(s, p, off, n, zend, v, v2), If(off == 0, p) + If(zend % 4096 == 0, p + n - 1);
      r.partialEnd == s.partialEnd - dropped && r.partialStart == s.partialStart - dropped
  {
    hide Registrable, CloseOuter, Checked, AllowFirst, AllowNext, FetchWholeAfterZone;
    assert end == FixedEnd(off, zend);
  }

  /** The same when the first page cannot be registered: the whole page is checked, and it is
      flagged to begin inside an instruction if the zone does, and the last page to end so. */
  lemma FlagsOfUnregistered(t: Tables, s: State, p: nat, off: nat, v: bool, v2: bool, start: nat, end: nat)
    requires StateShape(s) && p in s.pages && off < PAGE && (p > 0 || off > 0) && !s.pages[p].checkDeny
    requires ZoneOf(s, p, off, FetchExtent(t, s.pages[p].visible, NextOf(s, p), off), start, end)
    requires !Registrable(s.pages[p].visible)
    ensures var z, r := FetchExtent(t, s.pages[p].visible, NextOf(s, p), off), FetchStep(t, s, p, off, v, v2);
      var dropped := If(off == 0, p) + If(z.end % 4096 == 0, p + z.pages - 1);
      && r.partialEnd == s.partialEnd + If(z.crossing.first, p) + If(z.crossing.second, p + 1) - dropped
           + If(end % 4096 != 0, p + z.pages - 1)
      && r.partialStart == s.partialStart + If(z.crossing.first, p + 1) + If(z.crossing.second, p + 2) - dropped
           + If(start % 4096 != 0, p)
  {
    hide FetchExtent, Registrable, Checked, AllowFirst, FetchZone;
    var z := FetchExtent(t, s.pages[p].visible, NextOf(s, p), off);
    FlagsAfterSearch(s, z.crossing, p);
    UnregisteredTable(Flag(s, z.crossing, p), p, off, z.pages, z.end, v, v2, start, end);
  }

  lemma UnregisteredTable(s: State, p: nat, off: nat, n: nat, zend: nat, v: bool, v2: bool, start: nat, end: nat)
    requires StateShape(s) && p in s.pages && off < PAGE && !Registrable(s.pages[p].visible)
    requires 1 <= n <= MAX_PAGES && off <= zend <= n * PAGE && (n == 2 ==> p + 1 in s.pages)
    requires start == (if p > 0 && p - 1 in s.partialEnd then 0 else off)
    requires if zend != off then end == zend else off <= end < off + 4096 && end % 4096 == 0
    ensures var r, dropped := FetchZone(s, p, off, n, zend, v, v2), If(off == 0, p) + If(zend % 4096 == 0, p + n - 1);
      && r.partialEnd == s.partialEnd - dropped + If(end % 4096 != 0, p + n - 1)
      && r.partialStart == s.partialStart - dropped + If(start % 4096 != 0, p)
  {
    hide Registrable, FetchWholeAfterZone, FetchClose, FetchClose2, If;
    assert end == FixedEnd(off, zend);
    var s1 := if off == 0 then Unflag(s, p) else s;
    var s2 := if zend % PAGE == 0 then Unflag(s1, p + n - 1) else s1;
    DroppedTable(s, p, off, p + n - 1, zend);
    AfterZoneTable(s2, p, n, start, end, v);
  }

  lemma DroppedTable(s: State, p: nat, off: nat, last: nat, zend: nat)
    ensures var s1 := if off == 0 then Unflag(s, p) else s;
      var s2 := if zend % PAGE == 0 then Unflag(s1, last) else s1;
      var dropped := If(off == 0, p) + If(zend % 4096 == 0, last);
      s2.partialEnd == s.partialEnd - dropped && s2.partialStart == s.partialStart - dropped
  {
  }

  lemma AfterZoneTable(s: State, p: nat, n: nat, start: nat, end: nat, v: bool)
    requires p in s.pages && PageShape(s.pages[p]) && n >= 1
    ensures var r := FetchWholeAfterZone(s, p, n, start, end, v);
      && r.partialEnd == s.partialEnd + If(end % 4096 != 0, p + n - 1)
      && r.partialStart == s.partialStart + If(start % 4096 != 0, p)
  {
    hide Checked, AllowFirst;
  }

  /** The flags after a fetch of which nothing decodes: the page is taken to begin and to end
      inside an instruction. */
  lemma FlagsOfUndecodable(t: Tables, s: State, p: nat, off: nat, v: bool, v2: bool)
    requires StateShape(s) && p in s.pages && off < PAGE && (p > 0 || off > 0) && !s.pages[p].checkDeny
    requires FetchExtent(t, s.pages[p].visible, NextOf(s, p), off).Undecodable?
    ensures p in FetchStep(t, s, p, off, v, v2).partialStart && p in FetchStep(t, s, p, off, v, v2).partialEnd
  {
    hide FetchExtent;
  }

  /** The flags after a trap: those the search found, and both of the page if its copy is given
      back. */
  lemma FlagsAfterTrap(t: Tables, s: State, p: nat, off: nat, vma: Vma, v: Verdicts)
    requires StateShape(s) && p in s.pages && off < PAGE && TrapReady(t, s, p, off, vma)
    requires (p > 0 || off > 0) && TrapPageUsable(s.pages[p])
    ensures var r, z := TrapStep(t, s, p, off, vma, v), TrapFinds(t, s, p, off, vma);
      var back := TrapEffectOn(t, s, p, off, vma, v, p).touch.GivenBack?;
      && r.state.partialEnd == s.partialEnd + If(z.crossing.first, p) + If(z.crossing.second, p + 1) + If(back, p)
      && r.state.partialStart
         == s.partialStart + If(z.crossing.first, p + 1) + If(z.crossing.second, p + 2) + If(back, p)
  {
    hide TrapStep, TrapFinds, TrapAct, TrapReady, Registrable, Entered, FirstTouch;
    TrapActs(t, s, p, off, vma, v);
    ActStateShape(t, s, p, off, vma);
    ActFlags(t, s, p, off, vma);
    var s2 := ActState(t, s, p, off, vma);
    ActTable(s2, p, off, TrapFinds(t, s, p, off, vma), ActMaster(s, p, vma), ActExit(t, s, p, off, vma), v);
  }

  lemma ActFlags(t: Tables, s: State, p: nat, off: nat, vma: Vma)
    requires StateShape(s) && p in s.pages && off < PAGE && TrapPageUsable(s.pages[p])
    ensures var s2 := ActState(t, s, p, off, vma); s2.partialEnd == s.partialEnd && s2.partialStart == s.partialStart
  {
    hide Reaches, Registrable;
  }

  lemma ActTable(s: State, p: nat, off: nat, z: TrapExtent, m': seq<byte>, x: Exit, v: Verdicts)
    requires StateShape(s) && p in s.pages && off < PAGE && s.pages[p].masters != []
    requires IsPage(s.pages[p].masters[0]) && (x.second ==> p + 1 in s.pages)
    requires z.Zone? ==> 1 <= z.pages <= MAX_PAGES && off <= z.end <= z.pages * PAGE
    requires z.Zone? && z.pages == 2 ==> p + 1 in s.pages && IsPage(m') && z.end >= PAGE
    ensures var r, back := TrapAct(s, p, off, z, m', x, v), FirstTouch(z, s.pages[p].masters[0], off, v).GivenBack?;
      && r.state.partialEnd == s.partialEnd + If(z.crossing.first, p) + If(z.crossing.second, p + 1) + If(back, p)
      && r.state.partialStart
         == s.partialStart + If(z.crossing.first, p + 1) + If(z.crossing.second, p + 2) + If(back, p)
  {
    hide TrapWhole, TrapZone, WholeTouch, Flag;
    var s1, m := Flag(s, z.crossing, p), s.pages[p].masters[0];
    FlagsAfterSearch(s, z.crossing, p);
    match z
    case GiveUp(_) =>
    case WholePage(n, _, at) => WholeTable(s1, p, at, n, x, v);
    case Zone(n, e, _, _) => OpenTable(s1, p, off, n, FixedEnd(off, e), m, m', x, v);
  }

  lemma WholeTable(s: State, p: nat, at: nat, n: nat, x: Exit, v: Verdicts)
    requires p in s.pages && PageShape(s.pages[p]) && s.pages[p].masters != [] && IsPage(s.pages[p].masters[0])
    requires n == 2 && x.second ==> p + 1 in s.pages
    ensures var r, back := TrapWhole(s, p, at, n, x, v).state, WholeTouch(s.pages[p].masters[0], at, v).GivenBack?;
      r.partialEnd == s.partialEnd + If(back, p) && r.partialStart == s.partialStart + If(back, p)
  {
    hide AllMaskedAt, Checked, AllowTrapped;
  }

  lemma OpenTable(s: State, p: nat, off: nat, n: nat, end: nat, m: seq<byte>, m': seq<byte>, x: Exit, v: Verdicts)
    requires StateShape(s) && p in s.pages && s.pages[p].masters != [] && s.pages[p].masters[0] == m && IsPage(m)
    requires 1 <= n <= 2 && off < PAGE && off <= end <= n * PAGE && (x.second ==> p + 1 in s.pages)
    requires n == 2 ==> p + 1 in s.pages && IsPage(m') && end >= PAGE
    ensures var r := TrapZone(s, p, off, n, end, m, m', x, v).state;
      var back := v.zone && !v.zoneOver && end <= off && WholeTouch(m, off, v).GivenBack?;
      r.partialEnd == s.partialEnd + If(back, p) && r.partialStart == s.partialStart + If(back, p)
  {
    hide TrapWhole, WholeTouch, Checked, Opened, AllowTrapped;
    CheckedFrame(s.pages[p], m, off, Min(end, PAGE));
    var s1 := Put(s, p, Checked(s.pages[p], m, off, Min(end, PAGE)));
    var s2 := if n == 2 then Put(s1, p + 1, Checked(s1.pages[p + 1], m', 0, end - PAGE)) else s1;
    if n == 2 {
      CheckedFrame(s.pages[p + 1], m', 0, end - PAGE);
    }
    if v.zone && !v.zoneOver && end <= off {
      WholeTable(s2, p, off, n, x, v);
    }
  }
}
