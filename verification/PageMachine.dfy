/**
 The masked-page machine of one private address space.

 A tracked page has the bytes its process sees, the stack of its registered
 copies (the topmost is the master copy the handlers use), the page-table bits
 the module plays with, the write permission of its VMA, and, as a history, the
 bytes that were part of a range on which run_kernel_check returned 1 since the
 page's last write fault.

 One event is one run of a handler, or one write of the process.  The verdicts of
 run_kernel_check and of the byte quota are inputs of the event.
 */
module PageMachine {
  import opened Ld
  import opened Scanner
  import opened ZoneSearch

  datatype Page = Page(
    visible: seq<byte>, masters: seq<seq<byte>>,
    exeDeny: bool, write: bool, origExe: bool, origWrite: bool, checkDeny: bool,
    vmWrite: bool,
    checked: set<(nat, byte)>)

  // partialStart and partialEnd are the flags of the cross-page integrity table.
  datatype State = State(pages: map<nat, Page>, partialStart: set<nat>, partialEnd: set<nat>)

  function MaskedPage(): (r: seq<byte>)
    ensures IsPage(r) && forall i | 0 <= i < PAGE :: r[i] == INVALID_OPCODE
  {
    seq(PAGE, _ => INVALID_OPCODE)
  }

  predicate PageShape(pg: Page) {
    IsPage(pg.visible) && forall m | m in pg.masters :: IsPage(m)
  }

  predicate StateShape(s: State) {
    forall p | p in s.pages :: PageShape(s.pages[p])
  }

  // ---------------------------------------------------------------- one page

  // register_page and register_private_page refuse a page that begins or ends
  // with nine mask bytes.
  predicate Registrable(data: seq<byte>)
    requires IsPage(data)
  {
    && (exists i | 0 <= i < 9 :: data[i] != INVALID_OPCODE)
    && (exists i | PAGE - 9 <= i < PAGE :: data[i] != INVALID_OPCODE)
  }

  function Register(pg: Page): Page { pg.(masters := [pg.visible] + pg.masters) }

  function RegisterClosed(pg: Page): Page { Register(pg).(visible := MaskedPage()) }

  // page_not_fetched_yet on page q: the page is registered and closed entirely.  Page 0
  // stays open, because close_outer_zone refuses address 0.
  function Entered(q: nat, pg: Page): Page { if q == 0 then Register(pg) else RegisterClosed(pg) }

  /** Restoring undoes registering, whatever the page has shown in between. */
  lemma RestoreUndoesRegister(pg: Page, vis: seq<byte>)
    ensures Restored(Register(pg).(visible := vis)) == pg
  {
  }

  // Both handlers return at once.
  predicate IsAddressZero(p: nat, off: nat) { p == 0 && off == 0 }

  // run_kernel_check returned 1 on bytes lo..hi of m.
  function Checked(pg: Page, m: seq<byte>, lo: nat, hi: nat): Page
    requires lo <= hi <= |m|
  {
    pg.(checked := pg.checked + set i | lo <= i < hi :: (i, m[i]))
  }

  // Bytes lo..hi of the page become those of m.
  function Opened(visible: seq<byte>, m: seq<byte>, lo: nat, hi: nat): (r: seq<byte>)
    requires lo <= hi <= |m| == |visible|
    ensures |r| == |visible|
    ensures forall i | 0 <= i < |r| :: r[i] == if lo <= i < hi then m[i] else visible[i]
  {
    visible[..lo] + m[lo..hi] + visible[hi..]
  }

  function Open(pg: Page, m: seq<byte>, lo: nat, hi: nat): Page
    requires lo <= hi <= |m| == |pg.visible|
  {
    pg.(visible := Opened(pg.visible, m, lo, hi))
  }

  // The page-table bits after a first fetch: execution is allowed, and a page of a
  // writable mapping loses its write bit.
  function AllowFirst(pg: Page): Page {
    if pg.vmWrite then pg.(exeDeny := false, write := false, origWrite := true, checkDeny := true)
    else pg.(exeDeny := false, checkDeny := true)
  }

  function AllowNext(pg: Page): Page { pg.(exeDeny := false, checkDeny := true) }

  // The same for a page first met by the trap handler; vmaWrite is the permission
  // of the VMA it looked up last.
  function AllowTrapped(pg: Page, vmaWrite: bool): Page {
    var pg' := pg.(exeDeny := false, checkDeny := true);
    if vmaWrite then pg'.(write := false, origWrite := true) else pg'
  }

  // ---------------------------------------------------------------- close_outer_zone

  function CloseEnd(end: nat, pages: nat): nat
    requires pages >= 1
  {
    end % PAGE + (pages - 1) * PAGE
  }

  function CloseOuter(data: seq<byte>, start: nat, end: nat, pages: nat): (r: seq<byte>)
    requires 1 <= pages && |data| == pages * PAGE
    ensures |r| == |data|
    ensures forall i | 0 <= i < |r| :: r[i] == if start <= i < CloseEnd(end, pages) then data[i] else INVALID_OPCODE
  {
    seq(|data|, i requires 0 <= i < |data| => if start <= i < CloseEnd(end, pages) then data[i] else INVALID_OPCODE)
  }

  /** When the zone ends in its last page, closing leaves no byte outside it
      visible, and leaves the zone itself visible exactly if its end is not page
      aligned: an aligned end closes the whole last page. */
  lemma CloseOuterKeepsTheZone(data: seq<byte>, start: nat, end: nat, pages: nat)
    requires 1 <= pages <= MAX_PAGES && |data| == pages * PAGE
    requires start < PAGE && start < end && (pages - 1) * PAGE < end <= pages * PAGE
    ensures var r := CloseOuter(data, start, end, pages);
      && (forall i | 0 <= i < |r| && !(start <= i < end) :: r[i] == INVALID_OPCODE)
      && (end % PAGE != 0 ==> forall i | start <= i < end :: r[i] == data[i])
      && (end % PAGE == 0 ==> forall i | start <= i < (pages - 1) * PAGE :: r[i] == data[i])
      && (end % PAGE == 0 ==> forall i | (pages - 1) * PAGE <= i < |r| :: r[i] == INVALID_OPCODE)
  {
    if pages == 2 && end < 2 * PAGE {
      assert end % PAGE == end - PAGE;
    }
  }

  // ---------------------------------------------------------------- cross-page table

  function Flag(s: State, c: Crossing, p: nat): State {
    var s1 := if c.first then s.(partialEnd := s.partialEnd + {p}, partialStart := s.partialStart + {p + 1}) else s;
    if c.second then s1.(partialEnd := s1.partialEnd + {p + 1}, partialStart := s1.partialStart + {p + 2}) else s1
  }

  function FlagBoth(s: State, p: nat): State {
    s.(partialStart := s.partialStart + {p}, partialEnd := s.partialEnd + {p})
  }

  function Unflag(s: State, p: nat): State {
    s.(partialStart := s.partialStart - {p}, partialEnd := s.partialEnd - {p})
  }

  // ---------------------------------------------------------------- sig_handler

  function Put(s: State, p: nat, pg: Page): State { s.(pages := s.pages[p := pg]) }

  // The next page is searched when it is only executable and not yet fetched.
  function NextOf(s: State, p: nat): Next {
    if p + 1 in s.pages && !s.pages[p + 1].vmWrite && s.pages[p + 1].exeDeny then Next(s.pages[p + 1].visible)
    else NoNext
  }

  // The fallback: the whole page is checked and left as it is.
  function FetchWhole(s: State, p: nat, verdict: bool): (r: State)
    requires p in s.pages && PageShape(s.pages[p])
    ensures StateShape(s) ==> StateShape(r)
    ensures r.pages.Keys == s.pages.Keys
  {
    var pg := s.pages[p];
    if verdict then Put(s, p, AllowFirst(Checked(pg, pg.visible, 0, PAGE))) else s
  }

  // page_check: a zone was found but could not be registered or closed.
  function FetchWholeAfterZone(s: State, p: nat, pages: nat, start: nat, end: nat, verdict: bool): (r: State)
    requires p in s.pages && PageShape(s.pages[p]) && pages >= 1
    ensures StateShape(s) ==> StateShape(r)
    ensures r.pages.Keys == s.pages.Keys
  {
    var s1 := if Unaligned(start) then s.(partialStart := s.partialStart + {p}) else s;
    var s2 := if Unaligned(end) then s1.(partialEnd := s1.partialEnd + {p + pages - 1}) else s1;
    FetchWhole(s2, p, verdict)
  }

  /** A fetch fault at byte off of page p.  The second verdict is that of the
      whole-page check a zone that cannot be closed falls back to. */
  function FetchStep(t: Tables, s: State, p: nat, off: nat, verdict: bool, verdict2: bool): (r: State)
    requires StateShape(s) && p in s.pages && off < PAGE
    ensures StateShape(r)
  {
    var pg := s.pages[p];
    if IsAddressZero(p, off) then s
    else if pg.checkDeny then Put(s, p, AllowFirst(pg))
    else
      match FetchExtent(t, pg.visible, NextOf(s, p), off)
      case Undecodable(c) => FetchWhole(FlagBoth(Flag(s, c, p), p), p, verdict)
      case Extent(n, end, c, _) => FetchZone(Flag(s, c, p), p, off, n, end, verdict, verdict2)
  }

  function ZoneStart(s: State, p: nat, off: nat): nat {
    if p > 0 && p - 1 in s.partialEnd then 0 else off
  }

  function FetchZone(s: State, p: nat, off: nat, n: nat, end: nat, verdict: bool, verdict2: bool): (r: State)
    requires StateShape(s) && p in s.pages && off < PAGE
    requires 1 <= n <= MAX_PAGES && off <= end <= n * PAGE && (n == 2 ==> p + 1 in s.pages)
    ensures StateShape(r)
  {
    var s1 := if off == 0 then Unflag(s, p) else s;
    var s2 := if end % PAGE == 0 then Unflag(s1, p + n - 1) else s1;
    var start, last := ZoneStart(s2, p, off), FixedEnd(off, end);
    if !Registrable(s.pages[p].visible) then FetchWholeAfterZone(s2, p, n, start, last, verdict)
    else
      var s3 := Put(s2, p, Register(s2.pages[p]));
      if n == 1 then FetchClose(s3, p, start, last, verdict, verdict2)
      else if !Registrable(s.pages[p + 1].visible) then FetchWholeAfterZone(s3, p, n, start, last, verdict)
      else FetchClose2(Put(s3, p + 1, Register(s3.pages[p + 1])), p, start, last, verdict, verdict2)
  }

  function FetchClose(s: State, p: nat, start: nat, end: nat, verdict: bool, verdict2: bool): (r: State)
    requires StateShape(s) && p in s.pages && start < PAGE && start <= end <= PAGE
    ensures StateShape(r)
    ensures r.pages.Keys == s.pages.Keys
  {
    var pg := s.pages[p];
    if !verdict then s
    else if end <= start then FetchWholeAfterZone(s, p, 1, start, end, verdict2)
    else
      var pg' := Checked(pg, pg.visible, start, end);
      Put(s, p, AllowFirst(pg'.(visible := CloseOuter(pg.visible, start, end, 1))))
  }

  // The bytes of the zone are those of the two pages joined; a check covers start..end of them.
  function FetchClose2(s: State, p: nat, start: nat, end: nat, verdict: bool, verdict2: bool): (r: State)
    requires StateShape(s) && p in s.pages && p + 1 in s.pages
    requires start < PAGE && start <= end <= 2 * PAGE
    ensures StateShape(r)
    ensures r.pages.Keys == s.pages.Keys
  {
    var pg, nx := s.pages[p], s.pages[p + 1];
    if !verdict then s
    else if end <= start then FetchWholeAfterZone(s, p, 2, start, end, verdict2)
    else
      var closed := CloseOuter(pg.visible + nx.visible, start, end, 2);
      var pg' := Checked(pg, pg.visible, start, if end < PAGE then end else PAGE);
      var nx' := Checked(nx, nx.visible, 0, if end < PAGE then 0 else end - PAGE);
      Put(Put(s, p, AllowFirst(pg'.(visible := closed[..PAGE]))),
          p + 1, AllowNext(nx'.(visible := closed[PAGE..])))
  }

  // ---------------------------------------------------------------- invalid_op_handler

  // What find_vma tells of the page after the trapping one, when it is not tracked.
  datatype Vma = NoVma | Vma(write: bool)

  function AfterOf(s: State, p: nat, vma: Vma): After
    requires StateShape(s)
  {
    if p + 1 in s.pages then
      var nx := s.pages[p + 1];
      if nx.masters != [] then Usable(nx.masters[0], nx.visible)
      else if (!nx.exeDeny || nx.origExe) && Registrable(nx.visible) then Usable(nx.visible, MaskedPage())
      else Unusable
    else if vma.NoVma? then Unmapped
    else Unusable
  }

  // The search runs into the second page.
  predicate Reaches(t: Tables, m: seq<byte>, v: seq<byte>, off: nat)
    requires IsPage(m) && IsPage(v) && off < PAGE
  {
    var g := GapFrom(v, off, off);
    g.PageEnd? && Scan(t, m[off..Limit(g)]).Continue?
  }

  // The page the trap happened in, registered if it was not.
  predicate TrapPageUsable(pg: Page)
    requires PageShape(pg)
  {
    pg.masters != [] || ((!pg.exeDeny || pg.origExe) && Registrable(pg.visible))
  }

  function TrapPage(p: nat, pg: Page): (r: Page)
    requires PageShape(pg) && TrapPageUsable(pg)
    ensures PageShape(r) && r.masters != []
  {
    if pg.masters != [] then pg else Entered(p, pg)
  }

  // The handler's verdicts, and whether the byte quota stopped it.
  datatype Verdicts = Verdicts(zone: bool, zoneOver: bool, page: bool, pageOver: bool)

  datatype Outcome = Outcome(state: State, handled: bool)

  /** An invalid-opcode trap at byte off of page p. */
  function TrapStep(t: Tables, s: State, p: nat, off: nat, vma: Vma, v: Verdicts): (r: Outcome)
    requires StateShape(s) && p in s.pages && off < PAGE
    requires TrapReady(t, s, p, off, vma)
    ensures StateShape(r.state)
  {
    var pg := s.pages[p];
    if IsAddressZero(p, off) || !TrapPageUsable(pg) then Outcome(s, false)
    else Trapped(t, Put(s, p, TrapPage(p, pg)), p, off, vma, pg.masters == [], v)
  }

  // A trap the handler can process without writing past its fifteen-byte buffer.
  predicate TrapReady(t: Tables, s: State, p: nat, off: nat, vma: Vma)
    requires StateShape(s) && p in s.pages && off < PAGE
  {
    var pg := s.pages[p];
    !IsAddressZero(p, off) && TrapPageUsable(pg) ==>
      var r := TrapPage(p, pg);
      Stitchable(t, r.masters[0], r.visible, off, AfterOf(s, p, vma))
  }

  // The handler once it has the master copy of the trapping page.
  function Trapped(t: Tables, s: State, p: nat, off: nat, vma: Vma, fetched: bool, v: Verdicts): (r: Outcome)
    requires StateShape(s) && p in s.pages && off < PAGE && s.pages[p].masters != []
    requires Stitchable(t, s.pages[p].masters[0], s.pages[p].visible, off, AfterOf(s, p, vma))
    ensures StateShape(r.state)
  {
    var pg := s.pages[p];
    var m := pg.masters[0];
    var after := AfterOf(s, p, vma);
    var s2 := if Reaches(t, m, pg.visible, off) then EnterNext(s, p) else s;
    var x := Exit(fetched,
                  Reaches(t, m, pg.visible, off) && after.Usable? && s.pages[p + 1].masters == [],
                  if Reaches(t, m, pg.visible, off) then LookedUp(s, p, vma) else pg.vmWrite);
    TrapAct(s2, p, off, TrapSearch(t, m, pg.visible, off, after), if after.Usable? then after.master else [], x, v)
  }

  // What the handler does with the extent its search found.
  function TrapAct(s: State, p: nat, off: nat, z: TrapExtent, m': seq<byte>, x: Exit, v: Verdicts): (r: Outcome)
    requires StateShape(s) && p in s.pages && off < PAGE && s.pages[p].masters != []
    requires x.second ==> p + 1 in s.pages
    requires z.Zone? ==> 1 <= z.pages <= MAX_PAGES && off <= z.end <= z.pages * PAGE
    requires z.Zone? && z.pages == 2 ==> p + 1 in s.pages && IsPage(m') && z.end >= PAGE
    ensures StateShape(r.state)
  {
    assert s.pages[p].masters[0] in s.pages[p].masters;
    match z
    case GiveUp(c) => Outcome(Flag(s, c, p), false)
    case WholePage(n, c, at) => TrapWhole(Flag(s, c, p), p, at, n, x, v)
    case Zone(n, end, c, _) =>
      TrapZone(Flag(s, c, p), p, off, n, FixedEnd(off, end), s.pages[p].masters[0], m', x, v)
  }

  // The page after the trapping one, registered and closed if it was not registered.
  function EnterNext(s: State, p: nat): (r: State)
    requires StateShape(s)
    ensures StateShape(r) && r.pages.Keys == s.pages.Keys
    ensures forall q | q in s.pages && q != p + 1 :: r.pages[q] == s.pages[q]
  {
    if p + 1 in s.pages && s.pages[p + 1].masters == []
       && (!s.pages[p + 1].exeDeny || s.pages[p + 1].origExe) && Registrable(s.pages[p + 1].visible)
    then Put(s, p + 1, RegisterClosed(s.pages[p + 1]))
    else s
  }

  // The write permission of the VMA the handler looked up last.
  function LookedUp(s: State, p: nat, vma: Vma): bool
    requires p in s.pages
  {
    if p + 1 in s.pages && s.pages[p + 1].masters == [] then s.pages[p + 1].vmWrite
    else if p + 1 !in s.pages && vma.Vma? then vma.write
    else s.pages[p].vmWrite
  }

  // Which of the two pages the handler registered itself, for the bits it sets on its way out.
  datatype Exit = Exit(first: bool, second: bool, vmaWrite: bool)

  function TrapExit(s: State, p: nat, n: nat, x: Exit): (r: Outcome)
    requires p in s.pages && (n == 2 && x.second ==> p + 1 in s.pages)
    ensures StateShape(s) ==> StateShape(r.state)
  {
    var s1 := if x.first then Put(s, p, AllowTrapped(s.pages[p], x.vmaWrite)) else s;
    Outcome(if n == 2 && x.second then Put(s1, p + 1, AllowTrapped(s1.pages[p + 1], x.vmaWrite)) else s1, true)
  }

  // Nine mask bytes: the page was altered, nothing is restored.  Behind the copy comes
  // its reference count, which is no mask byte.
  predicate AllMaskedAt(m: seq<byte>, at: nat)
    requires IsPage(m)
  {
    at + 9 <= PAGE && forall i | at <= i < at + 9 :: m[i] == INVALID_OPCODE
  }

  // The fallback: the whole master copy is checked, restored and unregistered.  The test
  // for mask bytes is made where the search was last started, be it in the second page.
  function TrapWhole(s: State, p: nat, at: nat, n: nat, x: Exit, v: Verdicts): (r: Outcome)
    requires p in s.pages && PageShape(s.pages[p]) && s.pages[p].masters != []
    requires n == 2 && x.second ==> p + 1 in s.pages
    ensures StateShape(s) ==> StateShape(r.state)
  {
    var pg := s.pages[p];
    var m := pg.masters[0];
    if AllMaskedAt(m, at) || !v.page then Outcome(s, false)
    else
      var pg' := Checked(pg, m, 0, PAGE);
      if v.pageOver then Outcome(Put(s, p, pg'), false)
      else TrapExit(FlagBoth(Put(s, p, pg'.(visible := m, masters := pg.masters[1..])), p), p, n, x)
  }

  function Min(a: nat, b: nat): nat { if a < b then a else b }

  // The zone is gathered from the master copies, checked, and written back.
  function TrapZone(s: State, p: nat, off: nat, n: nat, end: nat, m: seq<byte>, m': seq<byte>, x: Exit,
                    v: Verdicts): (r: Outcome)
    requires StateShape(s) && p in s.pages && s.pages[p].masters != [] && s.pages[p].masters[0] == m && IsPage(m)
    requires 1 <= n <= 2 && off < PAGE && off <= end <= n * PAGE
    requires n == 2 ==> p + 1 in s.pages && IsPage(m') && end >= PAGE
    ensures StateShape(r.state)
  {
    if !v.zone then Outcome(s, false)
    else
      var hi := Min(end, PAGE);
      var s1 := Put(s, p, Checked(s.pages[p], m, off, hi));
      var s2 := if n == 2 then Put(s1, p + 1, Checked(s1.pages[p + 1], m', 0, end - PAGE)) else s1;
      if v.zoneOver then Outcome(s2, false)
      else if end <= off then TrapWhole(s2, p, off, n, x, v)
      else if m[off] == INVALID_OPCODE then Outcome(s2, false)
      else
        var s3 := Put(s2, p, Open(s2.pages[p], m, off, hi));
        var s4 := if n == 2 then Put(s3, p + 1, Open(s3.pages[p + 1], m', 0, end - PAGE)) else s3;
        TrapExit(s4, p, n, x)
  }

  lemma MasterIsPage(pg: Page)
    requires PageShape(pg) && pg.masters != []
    ensures IsPage(pg.masters[0])
  {
    assert pg.masters[0] in pg.masters;
  }

  // Checking and opening leave the copies and the page-table bits alone.
  lemma CheckedFrame(pg: Page, m: seq<byte>, lo: nat, hi: nat)
    requires PageShape(pg) && IsPage(m) && lo <= hi <= PAGE
    ensures var c := Checked(pg, m, lo, hi);
      && PageShape(c) && c.masters == pg.masters && c.visible == pg.visible
      && c.checkDeny == pg.checkDeny && c.vmWrite == pg.vmWrite
      && Open(c, m, lo, hi).masters == pg.masters && Open(c, m, lo, hi).checkDeny == pg.checkDeny
      && Open(c, m, lo, hi).vmWrite == pg.vmWrite
  {
  }

  lemma TwoPagesReach(t: Tables, m: seq<byte>, vis: seq<byte>, off: nat, after: After)
    requires IsPage(m) && IsPage(vis) && off < PAGE && Stitchable(t, m, vis, off, after)
    requires after.Usable? ==> IsPage(after.master) && IsPage(after.visible)
    ensures var z := TrapSearch(t, m, vis, off, after);
      (z.Zone? || z.WholePage?) && z.pages == 2 ==> Reaches(t, m, vis, off)
  {
    hide Scan, SecondPage;
  }

  // ---------------------------------------------------------------- the other events

  // restore_page: the master copy goes back into the page and is forgotten.
  function Restored(pg: Page): Page {
    if pg.masters == [] then pg else pg.(visible := pg.masters[0], masters := pg.masters[1..])
  }

  // do_fault_ret_handler on a writable mapping; kernelWrite is the write bit the
  // kernel's own fault handling left behind.
  function WriteFaulted(pg: Page, kernelWrite: bool): Page {
    var pg1 := if pg.origWrite && pg.checkDeny then Restored(pg) else pg;
    pg1.(write := pg.origWrite || kernelWrite, origExe := true, exeDeny := true, checkDeny := false, checked := {})
  }

  // The page is materialised again without a write.
  function Materialised(pg: Page, kernelWrite: bool): Page {
    pg.(write := kernelWrite, origExe := true, exeDeny := true, checkDeny := false)
  }

  // At address zero do_fault_ret_handler returns at once, and the page is as the kernel left it.
  function Unhandled(pg: Page, kernelWrite: bool): Page { pg.(write := kernelWrite) }

  // mprotect between executable protections: the checked bit survives.
  function Protected(pg: Page, vmWrite: bool): Page {
    pg.(exeDeny := true, origExe := true, write := false, origWrite := vmWrite, vmWrite := vmWrite)
  }

  function Mapped(bytes: seq<byte>, vmWrite: bool, write: bool): Page {
    Page(bytes, [], true, write, true, false, false, vmWrite, {})
  }

  datatype Event =
    | Mmap(p: nat, bytes: seq<byte>, vmWrite: bool, kernelWrite: bool)
    | UserWrite(p: nat, bytes: seq<byte>)
    | Fetch(p: nat, off: nat, verdict: bool, verdict2: bool)
    | Trap(p: nat, off: nat, vma: Vma, verdicts: Verdicts)
    | WriteFault(p: nat, off: nat, kernelWrite: bool)
    | Materialise(p: nat, off: nat, kernelWrite: bool)
    | Mprotect(p: nat, vmWrite: bool)

  // What the hardware and the kernel allow to happen: a write needs the write bit,
  // a fetch fault the execute-disable bit, a trap a page that executes.
  predicate Enabled(t: Tables, s: State, e: Event)
    requires StateShape(s)
  {
    match e
    case Mmap(p, bytes, vmWrite, kw) => p !in s.pages && IsPage(bytes) && (kw ==> vmWrite)
    case UserWrite(p, bytes) => p in s.pages && s.pages[p].write && IsPage(bytes)
    case Fetch(p, off, _, _) => p in s.pages && off < PAGE && s.pages[p].exeDeny && s.pages[p].origExe
    case Trap(p, off, vma, _) =>
      p in s.pages && off < PAGE && !s.pages[p].exeDeny && TrapReady(t, s, p, off, vma)
    case WriteFault(p, off, _) => p in s.pages && off < PAGE && s.pages[p].vmWrite
    case Materialise(p, off, kw) => p in s.pages && off < PAGE && (kw ==> s.pages[p].vmWrite)
    case Mprotect(p, _) => p in s.pages
  }

  function Step(t: Tables, s: State, e: Event): (r: State)
    requires StateShape(s) && Enabled(t, s, e)
    ensures StateShape(r)
  {
    match e
    case Mmap(p, bytes, vmWrite, kw) => Put(s, p, Mapped(bytes, vmWrite, kw))
    case UserWrite(p, bytes) => Put(s, p, s.pages[p].(visible := bytes))
    case Fetch(p, off, v, v2) => FetchStep(t, s, p, off, v, v2)
    case Trap(p, off, vma, v) => TrapStep(t, s, p, off, vma, v).state
    case WriteFault(p, off, kw) =>
      Put(s, p, if IsAddressZero(p, off) then Unhandled(s.pages[p], kw) else WriteFaulted(s.pages[p], kw))
    case Materialise(p, off, kw) =>
      Put(s, p, if IsAddressZero(p, off) then Unhandled(s.pages[p], kw) else Materialised(s.pages[p], kw))
    case Mprotect(p, vmWrite) => Put(s, p, Protected(s.pages[p], vmWrite))
  }

  // Every event of the run happens when it can.
  predicate Runs(t: Tables, s: State, es: seq<Event>)
    requires StateShape(s)
    decreases |es|
  {
    es != [] ==> Enabled(t, s, es[0]) && Runs(t, Step(t, s, es[0]), es[1..])
  }

  function Final(t: Tables, s: State, es: seq<Event>): (r: State)
    requires StateShape(s) && Runs(t, s, es)
    ensures StateShape(r)
    decreases |es|
  {
    if es == [] then s else Final(t, Step(t, s, es[0]), es[1..])
  }

  const START := State(map[], {}, {})
}
