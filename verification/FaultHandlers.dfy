/**
 The handlers that move page-table bits without looking at code: the exits of
 do_mmap and of the kernel's fault handling, and the change of a VMA's protection.
 Bits are flipped one after the other.
 */
module FaultHandlers {
  import opened Ld
  import opened ZoneSearch
  import opened PageMachine
  import opened PageMasking
  import opened FetchHandler

  datatype Bit = ExeDeny | OrigExe | OrigWrite | Write | CheckDeny

  function Flipped(pg: Page, b: Bit, on: bool): Page {
    match b
    case ExeDeny => pg.(exeDeny := on)
    case OrigExe => pg.(origExe := on)
    case OrigWrite => pg.(origWrite := on)
    case Write => pg.(write := on)
    case CheckDeny => pg.(checkDeny := on)
  }

  // The mapping of n pages from p on, as a run of single-page mappings.
  function MappedRange(s: State, p: nat, contents: seq<seq<byte>>, vmWrite: bool, kernelWrite: bool): State
    decreases |contents|
  {
    if contents == [] then s
    else
      var n := |contents| - 1;
      Put(MappedRange(s, p, contents[..n], vmWrite, kernelWrite), p + n, Mapped(contents[n], vmWrite, kernelWrite))
  }

  /** Page p + i of the mapping shows contents[i], does not execute, is marked as executable and
      unchecked, and has no copy; no other page changes. */
  lemma {:induction false} MappedRangeExactly(s: State, p: nat, contents: seq<seq<byte>>, vmWrite: bool, kw: bool,
                                              q: nat)
    ensures var s' := MappedRange(s, p, contents, vmWrite, kw);
      if p <= q < p + |contents| then
        && q in s'.pages && s'.pages[q].visible == contents[q - p] && s'.pages[q].masters == []
        && s'.pages[q].exeDeny && s'.pages[q].origExe && !s'.pages[q].checkDeny && s'.pages[q].write == kw
        && s'.pages[q].vmWrite == vmWrite && s'.pages[q].checked == {}
      else (q in s'.pages <==> q in s.pages) && (q in s.pages ==> s'.pages[q] == s.pages[q])
  {
    if contents != [] {
      MappedRangeExactly(s, p, contents[..|contents| - 1], vmWrite, kw, q);
    }
  }

  /** do_mmap_ret_handler on an executable mapping: every page of it is marked. */
  method DoMmapRet(space: AddressSpace, p: nat, contents: seq<seq<byte>>, vmWrite: bool, kernelWrite: bool)
    modifies space`pages
    ensures space.Abs() == MappedRange(old(space.Abs()), p, contents, vmWrite, kernelWrite)
  {
    var i := 0;
    assert contents[..0] == [];
    while i < |contents|
      invariant 0 <= i <= |contents|
      invariant space.Abs() == MappedRange(old(space.Abs()), p, contents[..i], vmWrite, kernelWrite)
    {
      // The entry as the kernel made it; only its write bit matters.
      var pg := Page(contents[i], [], false, kernelWrite, false, false, true, vmWrite, {});
      pg := Flipped(pg, ExeDeny, true);
      pg := Flipped(pg, OrigExe, true);
      pg := Flipped(pg, CheckDeny, false);
      assert contents[..i + 1][..i] == contents[..i];
      space.pages := space.pages[p + i := pg];
      i := i + 1;
    }
    assert contents[..i] == contents;
  }

  /** restore_page: the latest copy goes back into the page and leaves the table.  The caller
      gets the page that registering turns into this one, up to what it showed meanwhile; a
      page whose copies are a chain stays one, and shows no less than before. */
  method RestorePage(pg: Page) returns (found: bool, pg': Page)
    requires PageShape(pg)
    ensures found <==> pg.masters != []
    ensures found ==> Register(pg').(visible := pg.visible) == pg
    ensures !found ==> pg' == pg
    ensures Opens(pg, pg')
  {
    found, pg' := pg.masters != [], pg;
    if found {
      pg' := pg.(visible := pg.masters[0], masters := pg.masters[1..]);
    }
    RestoreOpens(pg);
  }

  // The registered page determines the restored one.
  lemma OnlyOneRestores(pg: Page, pg': Page)
    requires if pg.masters != [] then Register(pg').(visible := pg.visible) == pg else pg' == pg
    ensures pg' == Restored(pg)
  {
    if pg.masters != [] {
      RestoreUndoesRegister(pg', pg.visible);
    }
  }

  /** do_fault_ret_handler on a fault at byte off of page q: isWrite and noPage are
      FAULT_FLAG_WRITE and VM_FAULT_NOPAGE.  A write fault of a writable mapping gives the
      original page back; every fault that materialises or writes a page makes it
      non-executable and unchecked.  At address zero nothing is done but what the kernel did. */
  method DoFaultRet(space: AddressSpace, q: nat, off: nat, isWrite: bool, noPage: bool, kernelWrite: bool)
    requires q in space.pages && PageShape(space.pages[q])
    modifies space`pages
    ensures !isWrite && !noPage ==> space.Abs() == old(space.Abs())
    ensures (isWrite || noPage) && IsAddressZero(q, off) ==>
      space.Abs() == Put(old(space.Abs()), q, Unhandled(old(space.pages[q]), kernelWrite))
    ensures isWrite && old(space.pages[q]).vmWrite && !IsAddressZero(q, off) ==>
      space.Abs() == Put(old(space.Abs()), q, WriteFaulted(old(space.pages[q]), kernelWrite))
    ensures (isWrite || noPage) && !(isWrite && old(space.pages[q]).vmWrite) && !IsAddressZero(q, off) ==>
      space.Abs() == Put(old(space.Abs()), q, Materialised(old(space.pages[q]), kernelWrite))
  {
    if !isWrite && !noPage {
      return;
    }
    var pg := space.pages[q];
    var origWrite, checkDeny := pg.origWrite, pg.checkDeny;
    pg := Flipped(pg, Write, kernelWrite); // the entry as the kernel left it
    if IsAddressZero(q, off) {
      space.pages := space.pages[q := pg];
      return;
    }
    if pg.vmWrite && isWrite && origWrite {
      if checkDeny {
        var _, restored := RestorePage(pg);
        OnlyOneRestores(pg, restored);
        pg := restored;
      }
      pg := Flipped(pg, Write, true);
    }
    pg := Flipped(pg, OrigExe, true);
    pg := Flipped(pg, ExeDeny, true);
    pg := Flipped(pg, CheckDeny, false);
    if isWrite && pg.vmWrite {
      pg := pg.(checked := {}); // a new history begins
    }
    space.pages := space.pages[q := pg];
  }

  /** change_protection_handler on a VMA that was and stays executable.  The entry
      takes its protection bits from the VMA; the mark that it was checked stays. */
  method ChangeProtection(space: AddressSpace, q: nat, vmWrite: bool)
    requires q in space.pages
    modifies space`pages
    ensures space.Abs() == Put(old(space.Abs()), q, Protected(old(space.pages[q]), vmWrite))
  {
    // The new vm_page_prot before the handler: execution allowed, writing as asked.
    var pg := space.pages[q].(vmWrite := vmWrite, exeDeny := false, write := vmWrite, origWrite := false);
    pg := Flipped(pg, ExeDeny, true);
    pg := Flipped(pg, OrigExe, true);
    if vmWrite {
      pg := Flipped(pg, Write, false);
      pg := Flipped(pg, OrigWrite, true);
    }
    space.pages := space.pages[q := pg];
  }
}
