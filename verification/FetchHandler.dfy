/**
 sig_handler as it runs: the search over the pages of an instruction-fetch fault,
 the closing of the zone it found, and the page-table bits it leaves.

 The kernel buffer of MAX_PAGES pages is an array; its byte 0 stands at address 1,
 because address 0 is no valid buffer address for the disassembler.
 */
module FetchHandler {
  import opened Ld
  import opened Decoder
  import opened Scanner
  import opened Disassembler
  import opened ZoneSearch
  import opened PageMachine

  // memcpy into a buffer.
  method CopyIn(src: seq<byte>, dst: array<byte>, at: nat)
    requires at + |src| <= dst.Length
    modifies dst
    ensures dst[at..at + |src|] == src
    ensures dst[..at] == old(dst[..at]) && dst[at + |src|..] == old(dst[at + |src|..])
  {
    forall k | 0 <= k < |src| {
      dst[at + k] := src[k];
    }
  }

  // memset.
  method Fill(dst: array<byte>, from: nat, to: nat, b: byte)
    requires from <= to <= dst.Length
    modifies dst
    ensures forall k | 0 <= k < dst.Length :: dst[k] == if from <= k < to then b else old(dst[k])
  {
    forall k | from <= k < to {
      dst[k] := b;
    }
  }

  lemma FlagOneByOne(s: State, a: bool, b: bool, p: nat)
    ensures Flag(s, Crossing(false, false), p) == s
    ensures Flag(s, Crossing(a, b), p) == Flag(Flag(s, Crossing(a, false), p), Crossing(b, false), p + 1)
  {
  }

  // The search over s has ended in s' as FetchExtent says, with n pages and the end it found.
  ghost predicate Searched(t: Tables, s: State, p: nat, off: nat, st: Stats, s': State, st': Stats,
                           decoded: bool, n: nat, end: nat)
    requires StateShape(s) && p in s.pages && off < PAGE
  {
    var z := FetchExtent(t, s.pages[p].visible, NextOf(s, p), off);
    && s' == Flag(s, z.crossing, p)
    && decoded == z.Extent?
    && (z.Extent? ==> n == z.pages && end == z.end && st' == Add(st, z.stats))
  }

  // Whether the search goes on in the page after p.
  predicate GoesOn(s: State, p: nat) {
    p + 1 in s.pages && !s.pages[p + 1].vmWrite && s.pages[p + 1].exeDeny
  }

  function FirstScan(t: Tables, s: State, p: nat, off: nat): Result
    requires StateShape(s) && p in s.pages && off < PAGE
  {
    Scan(t, s.pages[p].visible[off..])
  }

  function AfterFirst(t: Tables, s: State, p: nat, off: nat): State
    requires StateShape(s) && p in s.pages && off < PAGE
  {
    var r := FirstScan(t, s, p, off);
    Flag(s, Crossing(r.Continue? && Unaligned(off + r.end), false), p)
  }

  lemma FirstTurn(t: Tables, s: State, p: nat, off: nat)
    requires StateShape(s) && p in s.pages && off < PAGE
    ensures var r := FirstScan(t, s, p, off);
      AfterFirst(t, s, p, off) == Flag(s, Crossing(r.Continue? && Unaligned(off + r.end), false), p)
  {
  }

  lemma SearchedOne(t: Tables, s: State, p: nat, off: nat, st: Stats, st': Stats, n: nat, end: nat)
    requires StateShape(s) && p in s.pages && off < PAGE
    requires FirstScan(t, s, p, off).Continue? ==> !GoesOn(s, p)
    ensures var r := FirstScan(t, s, p, off);
      if r.Failed? then Searched(t, s, p, off, st, AfterFirst(t, s, p, off), st', false, n, end)
      else Searched(t, s, p, off, st, AfterFirst(t, s, p, off), Add(st, r.stats), true, 1, off + r.end)
  {
    hide Scan, Add;
  }

  lemma SearchedTwo(t: Tables, s: State, p: nat, off: nat, st: Stats, st': Stats, n: nat, end: nat)
    requires StateShape(s) && p in s.pages && off < PAGE
    requires FirstScan(t, s, p, off).Continue? && GoesOn(s, p)
    ensures var r := FirstScan(t, s, p, off);
      var e := off + r.end;
      var r' := Scan(t, (s.pages[p].visible + s.pages[p + 1].visible)[e..AlignUp(e) + PAGE]);
      var s' := Flag(AfterFirst(t, s, p, off), Crossing(r'.Continue? && Unaligned(e + r'.end), false), p + 1);
      if r'.Failed? then Searched(t, s, p, off, st, s', st', false, n, end)
      else Searched(t, s, p, off, st, s', Add(Add(st, r.stats), r'.stats), true, 2, e + r'.end)
  {
    hide Scan, Add, Flag, Unaligned, AlignUp;
    var r := FirstScan(t, s, p, off);
    var e := off + r.end;
    var r' := Scan(t, (s.pages[p].visible + s.pages[p + 1].visible)[e..AlignUp(e) + PAGE]);
    FlagOneByOne(s, r.Continue? && Unaligned(e), r'.Continue? && Unaligned(e + r'.end), p);
    AddAssociative(st, r.stats, r'.stats);
  }

  /** The hash tables and page-table bits of one private address space. */
  class AddressSpace {
    const tables: Tables
    var pages: map<nat, Page>
    var partialStart: set<nat>
    var partialEnd: set<nat>

    constructor (t: Tables)
      ensures tables == t && Abs() == START
    {
      tables := t;
      pages, partialStart, partialEnd := map[], {}, {};
    }

    function Abs(): State reads this { State(pages, partialStart, partialEnd) }

    // The page ends inside an instruction, the next one begins inside it.
    method RegisterCrossing(q: nat)
      modifies this`partialStart, this`partialEnd
      ensures Abs() == Flag(old(Abs()), Crossing(true, false), q)
    {
      partialEnd := partialEnd + {q};
      partialStart := partialStart + {q + 1};
    }

    // Copies one page behind the bytes w that the buffer already holds.
    method Load(q: nat, i: nat, data: array<byte>, ghost w: seq<byte>)
      requires q in pages && IsPage(pages[q].visible) && i < MAX_PAGES
      requires data.Length == 1 + MAX_PAGES * PAGE && |w| == i * PAGE && data[1..1 + i * PAGE] == w
      modifies data
      ensures data[1..1 + (i + 1) * PAGE] == w + pages[q].visible
    {
      ghost var head := data[..1 + i * PAGE];
      assert head[1..] == w;
      CopyIn(pages[q].visible, data, 1 + i * PAGE);
      SplitSlice(data[..], 1, 1 + i * PAGE, 1 + (i + 1) * PAGE);
      assert data[..1 + i * PAGE][1..] == head[1..];
    }

    // One turn of the search: page q is loaded as page i of the buffer, and the
    // buffer is disassembled from startOffset to endOffset.
    method SearchPage(q: nat, i: nat, data: array<byte>, startOffset: nat, limit: nat, st: ZoneStats,
                      ghost w: seq<byte>)
      returns (code: int, endOffset: nat)
      requires TablesOk(tables) && q in pages && IsPage(pages[q].visible) && i < MAX_PAGES
      requires data.Length == 1 + MAX_PAGES * PAGE && startOffset < limit <= (i + 1) * PAGE
      requires |w| == i * PAGE && data[1..1 + i * PAGE] == w
      modifies this`partialStart, this`partialEnd, data, st
      ensures data[1..1 + (i + 1) * PAGE] == w + pages[q].visible
      ensures var r := Scan(tables, (w + pages[q].visible)[startOffset..limit]);
        && code == CodeOf(r) && st.stats == Add(old(st.stats), r.stats)
        && endOffset == (if r.Failed? then limit else startOffset + r.end)
        && Abs() == Flag(old(Abs()), Crossing(r.Continue? && Unaligned(endOffset), false), q)
    {
      hide Add, Scan, TablesOk;
      ghost var all := w + pages[q].visible;
      Load(q, i, data, w);
      SliceOfSlice(data[..], 1, 1 + (i + 1) * PAGE, startOffset, limit);
      var end;
      code, end := DisassembleCode(tables, data, 1 + startOffset, 1 + limit, st);
      endOffset := end - 1;
      if code == DISASSEMBLE_CONTINUE && Unaligned(endOffset) {
        RegisterCrossing(q);
      }
    }

    /** The block search of sig_handler. */
    method SearchBlock(p: nat, off: nat, st: ZoneStats) returns (decoded: bool, numPages: nat, end: nat)
      requires TablesOk(tables) && StateShape(Abs()) && p in pages && off < PAGE
      modifies this`partialStart, this`partialEnd, st
      ensures Searched(tables, old(Abs()), p, off, old(st.stats), Abs(), st.stats, decoded, numPages, end)
    {
      hide Add, Scan, TablesOk, Searched, Unaligned, Flag, AfterFirst;
      ghost var s0, st0 := Abs(), st.stats;
      ghost var page, r := pages[p].visible, FirstScan(tables, Abs(), p, off);
      FlagOneByOne(s0, false, false, p);
      var data := new byte[1 + MAX_PAGES * PAGE];
      var pageAddr, startOffset, endOffset := p, off, PAGE;
      ghost var w := [];
      numPages := 0;
      while numPages < MAX_PAGES
        invariant 0 <= numPages <= 1 && pageAddr == p + numPages && pageAddr in pages
        invariant w == (if numPages == 0 then [] else page) && data[1..1 + numPages * PAGE] == w
        invariant numPages == 0 ==> startOffset == off && endOffset == PAGE && st.stats == st0 && Abs() == s0
        invariant numPages == 1 ==> r.Continue? && endOffset == off + r.end && !pages[p + 1].vmWrite
        invariant numPages == 1 ==> st.stats == Add(st0, r.stats) && Abs() == AfterFirst(tables, s0, p, off)
        decreases MAX_PAGES - numPages
      {
        numPages := numPages + 1;
        if numPages > 1 {
          if !pages[pageAddr].exeDeny {
            SearchedOne(tables, s0, p, off, st0, st.stats, numPages, endOffset);
            return true, numPages - 1, endOffset;
          }
          startOffset := endOffset;
          endOffset := AlignUp(startOffset) + PAGE;
        }
        assert PageShape(pages[pageAddr]);
        assert numPages == 1 ==> (w + page)[off..PAGE] == page[off..];
        var code;
        code, endOffset := SearchPage(pageAddr, numPages - 1, data, startOffset, endOffset, st, w);
        if numPages == 1 {
          FirstTurn(tables, s0, p, off);
          if code != DISASSEMBLE_CONTINUE || !GoesOn(s0, p) {
            SearchedOne(tables, s0, p, off, st0, st.stats, numPages, endOffset);
          }
        } else {
          SearchedTwo(tables, s0, p, off, st0, st.stats, numPages, endOffset);
        }
        if code == DISASSEMBLE_ERROR {
          return false, numPages, endOffset;
        } else if code != DISASSEMBLE_CONTINUE || numPages >= MAX_PAGES {
          return true, numPages, endOffset;
        }
        w := w + pages[pageAddr].visible;
        pageAddr := pageAddr + 1;
        if pageAddr !in pages || pages[pageAddr].vmWrite {
          return true, numPages, endOffset;
        }
      }
      assert false; // the loop is only left from inside
    }

    method UnregisterCrossing(q: nat)
      modifies this`partialStart, this`partialEnd
      ensures Abs() == Unflag(old(Abs()), q)
    {
      partialStart := partialStart - {q};
      partialEnd := partialEnd - {q};
    }

    method RegisterPage(q: nat) returns (ok: bool)
      requires q in pages && IsPage(pages[q].visible)
      modifies this`pages
      ensures ok == Registrable(old(pages[q].visible))
      ensures Abs() == if ok then Put(old(Abs()), q, Register(old(pages[q]))) else old(Abs())
    {
      var data := pages[q].visible;
      ok := (exists i | 0 <= i < 9 :: data[i] != INVALID_OPCODE)
         && (exists i | PAGE - 9 <= i < PAGE :: data[i] != INVALID_OPCODE);
      if ok {
        pages := pages[q := pages[q].(masters := [data] + pages[q].masters)];
      }
    }

    // The bits of the first page, and of the pages after it.
    method AllowExe(q: nat)
      requires q in pages
      modifies this`pages
      ensures Abs() == Put(old(Abs()), q, AllowFirst(old(pages[q])))
    {
      var pg := pages[q].(exeDeny := false);
      if pg.vmWrite {
        pg := pg.(write := false);
        pg := pg.(origWrite := true);
      }
      pages := pages[q := pg.(checkDeny := true)];
    }

    method AllowExeNext(q: nat)
      requires q in pages
      modifies this`pages
      ensures Abs() == Put(old(Abs()), q, AllowNext(old(pages[q])))
    {
      var pg := pages[q].(exeDeny := false);
      pages := pages[q := pg.(checkDeny := true)];
    }

    // page_already_registered: the whole page is checked and left as it is.
    method CheckWholePage(p: nat, verdict: bool)
      requires p in pages && PageShape(pages[p])
      modifies this`pages
      ensures Abs() == FetchWhole(old(Abs()), p, verdict)
    {
      if verdict {
        pages := pages[p := Checked(pages[p], pages[p].visible, 0, PAGE)];
        AllowExe(p);
      }
    }

    // page_check
    method CheckPageAfterZone(p: nat, numPages: nat, start: nat, end: nat, verdict: bool)
      requires p in pages && PageShape(pages[p]) && numPages >= 1
      modifies this`pages, this`partialStart, this`partialEnd
      ensures Abs() == FetchWholeAfterZone(old(Abs()), p, numPages, start, end, verdict)
    {
      if Unaligned(start) {
        partialStart := partialStart + {p};
      }
      if Unaligned(end) {
        partialEnd := partialEnd + {p + numPages - 1};
      }
      CheckWholePage(p, verdict);
    }

    // run_kernel_check returned 1 on the zone: the history records its bytes, page by page.
    method RecordCheck(p: nat, numPages: nat, start: nat, end: nat)
      requires 1 <= numPages <= MAX_PAGES && start < PAGE && start < end <= numPages * PAGE
      requires p in pages && IsPage(pages[p].visible)
      requires numPages == 2 ==> p + 1 in pages && IsPage(pages[p + 1].visible)
      modifies this`pages
      ensures var s1 := Put(old(Abs()), p, Checked(old(pages[p]), old(pages[p]).visible, start, Min(end, PAGE)));
        Abs() == if numPages == 1 then s1
                 else Put(s1, p + 1, Checked(old(pages[p + 1]), old(pages[p + 1]).visible,
                                             0, if end < PAGE then 0 else end - PAGE))
    {
      pages := pages[p := Checked(pages[p], pages[p].visible, start, Min(end, PAGE))];
      if numPages == 2 {
        pages := pages[p + 1 := Checked(pages[p + 1], pages[p + 1].visible, 0, if end < PAGE then 0 else end - PAGE)];
      }
    }

    /** close_outer_zone: everything outside start..end of the pages is masked, unless the
        zone is empty or starts at address zero. */
    method CloseOuterZone(p: nat, start: nat, end: nat, numPages: nat) returns (ok: bool)
      requires 1 <= numPages <= MAX_PAGES && start < PAGE && start <= end <= numPages * PAGE
      requires p in pages && IsPage(pages[p].visible)
      requires numPages == 2 ==> p + 1 in pages && IsPage(pages[p + 1].visible)
      modifies this`pages
      ensures ok == (start < end && !IsAddressZero(p, start))
      ensures !ok ==> Abs() == old(Abs())
      ensures ok && numPages == 1 ==>
        Abs() == Put(old(Abs()), p, old(pages[p]).(visible := CloseOuter(old(pages[p]).visible, start, end, 1)))
      ensures ok && numPages == 2 ==>
        (var closed := CloseOuter(old(pages[p]).visible + old(pages[p + 1]).visible, start, end, 2);
         Abs() == Put(Put(old(Abs()), p, old(pages[p]).(visible := closed[..PAGE])),
                      p + 1, old(pages[p + 1]).(visible := closed[PAGE..])))
    {
      if IsAddressZero(p, start) || IsAddressZero(p, end) {
        return false;
      }
      if end <= start {
        return false;
      }
      var size, endOffset := numPages * PAGE, end % PAGE + (numPages - 1) * PAGE;
      var data := new byte[size];
      CopyIn(pages[p].visible, data, 0);
      if numPages == 2 {
        CopyIn(pages[p + 1].visible, data, PAGE);
      }
      ghost var all := data[..];
      assert all == if numPages == 1 then pages[p].visible else pages[p].visible + pages[p + 1].visible by {
        assert all[..PAGE] == pages[p].visible;
        assert numPages == 2 ==> all == all[..PAGE] + all[PAGE..];
      }
      Fill(data, 0, start, INVALID_OPCODE);
      Fill(data, endOffset, size, INVALID_OPCODE);
      ghost var closed := CloseOuter(all, start, end, numPages);
      assert data[..] == closed;
      assert data[..PAGE] == data[..][..PAGE] && data[PAGE..] == data[..][PAGE..];
      assert numPages == 1 ==> closed[..PAGE] == closed;
      pages := pages[p := pages[p].(visible := data[..PAGE])];
      if numPages == 2 {
        pages := pages[p + 1 := pages[p + 1].(visible := data[PAGE..])];
      }
      ok := true;
    }

    // Registers the pages of the zone one by one, up to the first that is refused.
    method RegisterPages(p: nat, numPages: nat) returns (ok: bool)
      requires 1 <= numPages <= MAX_PAGES && StateShape(Abs()) && p in pages && (numPages == 2 ==> p + 1 in pages)
      modifies this`pages
      ensures var s := old(Abs());
        var s1 := Put(s, p, Register(s.pages[p]));
        if !Registrable(s.pages[p].visible) then !ok && Abs() == s
        else if numPages == 1 then ok && Abs() == s1
        else if !Registrable(s.pages[p + 1].visible) then !ok && Abs() == s1
        else ok && Abs() == Put(s1, p + 1, Register(s1.pages[p + 1]))
    {
      hide Registrable;
      var i := 0;
      while i < numPages
        invariant 0 <= i <= numPages
        invariant i == 0 ==> Abs() == old(Abs())
        invariant i >= 1 ==> Registrable(old(pages[p]).visible)
        invariant i == 1 ==> Abs() == Put(old(Abs()), p, Register(old(pages[p])))
        invariant i == 2 ==> Registrable(old(pages[p + 1]).visible)
        invariant i == 2 ==>
          Abs() == Put(Put(old(Abs()), p, Register(old(pages[p]))), p + 1, Register(old(pages[p + 1])))
      {
        assert PageShape(old(pages)[p + i]);
        ok := RegisterPage(p + i);
        if !ok {
          return;
        }
        i := i + 1;
      }
      ok := true;
    }

    // Execution is allowed for the first page, then for the remaining ones.
    method AllowPages(p: nat, numPages: nat)
      requires 1 <= numPages <= MAX_PAGES && p in pages && (numPages == 2 ==> p + 1 in pages)
      modifies this`pages
      ensures var s1 := Put(old(Abs()), p, AllowFirst(old(pages[p])));
        Abs() == if numPages == 1 then s1 else Put(s1, p + 1, AllowNext(old(pages[p + 1])))
    {
      hide AllowFirst, AllowNext;
      ghost var s1 := Put(Abs(), p, AllowFirst(pages[p]));
      AllowExe(p);
      var i := 1;
      while i < numPages
        invariant 1 <= i <= numPages
        invariant Abs() == if i == 1 then s1 else Put(s1, p + 1, AllowNext(s1.pages[p + 1]))
      {
        AllowExeNext(p + i);
        i := i + 1;
      }
    }

    // The check of the zone and what follows from its verdict.
    method CloseZone(p: nat, numPages: nat, start: nat, end: nat, verdict: bool, verdict2: bool)
      requires StateShape(Abs()) && p in pages && start < PAGE && start <= end <= numPages * PAGE
      requires 1 <= numPages <= MAX_PAGES && (numPages == 2 ==> p + 1 in pages) && !IsAddressZero(p, start)
      modifies this`pages, this`partialStart, this`partialEnd
      ensures Abs() == if numPages == 1 then FetchClose(old(Abs()), p, start, end, verdict, verdict2)
                       else FetchClose2(old(Abs()), p, start, end, verdict, verdict2)
    {
      hide AllowFirst, AllowNext, FetchWholeAfterZone, CloseOuter, Checked, Open, FetchClose, FetchClose2, PageShape;
      ghost var s := Abs();
      PagesOfZone(s, p, numPages);
      if numPages == 1 {
        CloseOne(s, p, start, end, verdict, verdict2);
      } else {
        CloseTwo(s, p, start, end, verdict, verdict2);
      }
      if !verdict {
        return;
      }
      if start < end {
        RecordCheck(p, numPages, start, end);
        CheckedFrame(s.pages[p], s.pages[p].visible, start, Min(end, PAGE));
        if numPages == 2 {
          CheckedFrame(s.pages[p + 1], s.pages[p + 1].visible, 0, if end < PAGE then 0 else end - PAGE);
        }
      }
      var ok := CloseOuterZone(p, start, end, numPages);
      if !ok {
        CheckPageAfterZone(p, numPages, start, end, verdict2);
        return;
      }
      AllowPages(p, numPages);
    }

    // From the end of the search to the page-table bits.
    method OpenFirstZone(p: nat, off: nat, numPages: nat, zoneEnd: nat, verdict: bool, verdict2: bool)
      requires StateShape(Abs()) && p in pages && off < PAGE
      requires 1 <= numPages <= MAX_PAGES && off <= zoneEnd <= numPages * PAGE && (numPages == 2 ==> p + 1 in pages)
      requires !IsAddressZero(p, off)
      modifies this`pages, this`partialStart, this`partialEnd
      ensures Abs() == FetchZone(old(Abs()), p, off, numPages, zoneEnd, verdict, verdict2)
    {
      hide Registrable, FetchClose, FetchClose2, FetchWholeAfterZone;
      var start, end := off, zoneEnd;
      if off == 0 {
        UnregisterCrossing(p);
      }
      if end % PAGE == 0 {
        UnregisterCrossing(p + numPages - 1);
      }
      if end == off {
        end := AlignUp(end);
      }
      if p > 0 && p - 1 in partialEnd {
        start := 0;
      }
      var ok := RegisterPages(p, numPages);
      if !ok {
        CheckPageAfterZone(p, numPages, start, end, verdict);
        return;
      }
      CloseZone(p, numPages, start, end, verdict, verdict2);
    }

    /** sig_handler on an instruction-fetch fault at byte off of page p. */
    method SigHandler(p: nat, off: nat, verdict: bool, verdict2: bool, st: ZoneStats)
      requires TablesOk(tables) && StateShape(Abs()) && p in pages && off < PAGE
      modifies this`pages, this`partialStart, this`partialEnd, st
      ensures Abs() == FetchStep(tables, old(Abs()), p, off, verdict, verdict2)
    {
      if IsAddressZero(p, off) {
        return;
      }
      if pages[p].checkDeny {
        AllowExe(p);
        return;
      }
      var decoded, numPages, end := SearchBlock(p, off, st);
      if !decoded {
        partialStart, partialEnd := partialStart + {p}, partialEnd + {p};
        CheckWholePage(p, verdict);
      } else {
        OpenFirstZone(p, off, numPages, end, verdict, verdict2);
      }
    }
  }

  lemma PagesOfZone(s: State, p: nat, numPages: nat)
    requires StateShape(s) && p in s.pages && (numPages == 2 ==> p + 1 in s.pages)
    ensures IsPage(s.pages[p].visible) && PageShape(s.pages[p])
    ensures numPages == 2 ==> IsPage(s.pages[p + 1].visible) && PageShape(s.pages[p + 1])
  {
  }

  // Recording, closing and allowing one page after the other is one step of the machine.
  lemma CloseOne(s: State, p: nat, start: nat, end: nat, v: bool, v2: bool)
    requires StateShape(s) && p in s.pages && IsPage(s.pages[p].visible) && PageShape(s.pages[p])
    requires start < PAGE && start <= end <= PAGE
    ensures !v ==> FetchClose(s, p, start, end, v, v2) == s
    ensures v && end <= start ==> FetchClose(s, p, start, end, v, v2) == FetchWholeAfterZone(s, p, 1, start, end, v2)
    ensures v && start < end ==>
      var pg := s.pages[p];
      var s1 := Put(s, p, Checked(pg, pg.visible, start, end));
      var s2 := Put(s1, p, s1.pages[p].(visible := CloseOuter(pg.visible, start, end, 1)));
      Put(s2, p, AllowFirst(s2.pages[p])) == FetchClose(s, p, start, end, v, v2)
  {
    hide AllowFirst, FetchWholeAfterZone, CloseOuter, Checked;
  }

  lemma CloseTwo(s: State, p: nat, start: nat, end: nat, v: bool, v2: bool)
    requires StateShape(s) && p in s.pages && IsPage(s.pages[p].visible) && PageShape(s.pages[p])
    requires p + 1 in s.pages && IsPage(s.pages[p + 1].visible)
    requires start < PAGE && start <= end <= 2 * PAGE
    ensures !v ==> FetchClose2(s, p, start, end, v, v2) == s
    ensures v && end <= start ==> FetchClose2(s, p, start, end, v, v2) == FetchWholeAfterZone(s, p, 2, start, end, v2)
    ensures v && start < end ==>
      var pg, nx := s.pages[p], s.pages[p + 1];
      var s1 := Put(Put(s, p, Checked(pg, pg.visible, start, Min(end, PAGE))),
                    p + 1, Checked(nx, nx.visible, 0, if end < PAGE then 0 else end - PAGE));
      var closed := CloseOuter(pg.visible + nx.visible, start, end, 2);
      var s2 := Put(Put(s1, p, s1.pages[p].(visible := closed[..PAGE])),
                    p + 1, s1.pages[p + 1].(visible := closed[PAGE..]));
      Put(Put(s2, p, AllowFirst(s2.pages[p])), p + 1, AllowNext(s2.pages[p + 1]))
      == FetchClose2(s, p, start, end, v, v2)
  {
    hide AllowFirst, AllowNext, FetchWholeAfterZone, CloseOuter, Checked;
  }

  lemma SliceOfSlice(s: seq<byte>, a: nat, b: nat, i: nat, j: nat)
    requires a <= b <= |s| && i <= j <= b - a
    ensures s[a..b][i..j] == s[a + i..a + j]
  {
    assert forall k | 0 <= k < j - i :: s[a..b][i..j][k] == s[a + i..a + j][k];
  }

  lemma SplitSlice(s: seq<byte>, a: nat, b: nat, c: nat)
    requires a <= b <= c <= |s|
    ensures s[a..c] == s[a..b] + s[b..c]
  {
  }
}
