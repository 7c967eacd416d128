/**
 invalid_op_handler as it runs: the gap search, the crossing of a page boundary,
 the search over at most two pages, and the zone gathered from the master copies
 and scattered over the user pages.
 */
module TrapHandler {
  import opened Ld
  import opened Decoder
  import opened Scanner
  import opened Disassembler
  import opened ZoneSearch
  import opened PageMachine
  import opened FetchHandler

  // ---------------------------------------------------------------- the search

  const PAGE_END := -1

  function GapCode(g: Gap): int { if g.UpTo? then g.offset else PAGE_END }

  /** find_first_invalid_opcode_byte, on the bytes the user page shows. */
  method FindFirstInvalidOpcodeByte(page: array<byte>, start: nat) returns (offset: int)
    requires page.Length == PAGE && start < PAGE
    ensures offset == GapCode(GapFrom(page[..], start, start))
  {
    var copy := new byte[PAGE - start];
    CopyIn(page[start..], copy, 0);
    assert copy[..] == page[start..];
    var i := 0;
    while i < copy.Length
      invariant 0 <= i <= copy.Length
      invariant forall j | start <= j < start + i :: page[..][j] == INVALID_OPCODE
      invariant GapFrom(page[..], start, start) == GapFrom(page[..], start, start + i)
    {
      if copy[i] != INVALID_OPCODE {
        assert copy[..][i] == page[..][start + i];
        if i == 0 {
          return PAGE_END;
        } else {
          return start + i;
        }
      }
      assert copy[..][i] == page[..][start + i];
      i := i + 1;
    }
    return PAGE_END;
  }

  /** handle_cross_page: the last bytes of one page and the first of the next are
      joined in a buffer and disassembled. */
  method HandleCrossPage(t: Tables, next: seq<byte>, prev: seq<byte>, startInstr: nat, st: ZoneStats)
    returns (ok: bool, lastInstr: nat)
    requires TablesOk(t) && IsPage(next) && IsPage(prev)
    requires startInstr <= PAGE && PAGE - startInstr <= MAX_INSTRUCTION
    requires DecodeOne(t, prev[startInstr..]).Incomplete?
    modifies st
    ensures var c := CrossOffset(t, prev, next, startInstr);
      && ok == c.Cross? && (c.Cross? ==> lastInstr == c.offset)
      && st.stats == Add(old(st.stats), c.stats)
  {
    hide DecodeOne, Scan, Add, TablesOk;
    var bytesToCopy := PAGE - startInstr;
    var buff := new byte[1 + MAX_INSTRUCTION];
    CopyIn(prev[startInstr..], buff, 1);
    ghost var head := buff[..1 + bytesToCopy];
    CopyIn(next[..MAX_INSTRUCTION - bytesToCopy], buff, 1 + bytesToCopy);
    assert head[1..] == prev[startInstr..];
    assert buff[1..1 + MAX_INSTRUCTION] == CrossBuffer(prev, next, startInstr) by {
      SplitSlice(buff[..], 1, 1 + bytesToCopy, 1 + MAX_INSTRUCTION);
      assert buff[..1 + bytesToCopy][1..] == head[1..];
    }
    CrossingPositive(t, prev, next, startInstr);
    var code, end := DisassembleCode(t, buff, 1, 1 + MAX_INSTRUCTION, st);
    if code == DISASSEMBLE_ERROR || end <= 1 {
      return false, 0;
    }
    return true, end - 1 - bytesToCopy;
  }

  // ---------------------------------------------------------------- gather and scatter

  /** The zone in contiguous memory: the rest of the first page, and endOffset bytes
      of the last one. */
  method GatherZone(first: array<byte>, second: array<byte>, startOffset: nat, endOffset: nat, numPages: nat)
    returns (data: array<byte>)
    requires 1 <= numPages <= MAX_PAGES && first.Length == PAGE && second.Length == PAGE
    requires startOffset < PAGE && endOffset <= PAGE
    ensures fresh(data)
    ensures data[..] == if numPages == 1 then first[startOffset..] else first[startOffset..] + second[..endOffset]
  {
    if numPages == 1 {
      data := new byte[PAGE - startOffset];
      CopyIn(first[startOffset..], data, 0);
      assert data[..] == data[0..PAGE - startOffset];
    } else {
      var off := PAGE - startOffset;
      data := new byte[off + endOffset];
      CopyIn(first[startOffset..], data, 0);
      ghost var head := data[..off];
      CopyIn(second[..endOffset], data, off);
      assert data[..] == data[..off] + data[off..];
      assert data[off..] == data[off..off + endOffset];
    }
  }

  /** write_zone_on_not_writable_user_pages for at most two pages. */
  method WriteZone(data: array<byte>, start: nat, end: nat, numPages: nat, user: array<byte>, user': array<byte>)
    requires 1 <= numPages <= MAX_PAGES && user.Length == PAGE && user'.Length == PAGE
    requires user != user' && data != user && data != user'
    requires start < PAGE && start < end && (numPages - 1) * PAGE < end <= numPages * PAGE && end - start <= data.Length
    modifies user, user'
    ensures var hi := Min(end, PAGE); user[..] == old(user[..start]) + data[..hi - start] + old(user[hi..])
    ensures numPages == 1 ==> user'[..] == old(user'[..])
    ensures numPages == 2 ==> user'[..] == data[PAGE - start..end - start] + old(user'[end - PAGE..])
  {
    var endOffset := end % PAGE;
    if numPages == 1 {
      CopyIn(data[..end - start], user, start);
    } else {
      CopyIn(data[..PAGE - start], user, start);
      var off := PAGE - start;
      if endOffset == 0 {
        CopyIn(data[off..off + PAGE], user', 0);
      } else {
        CopyIn(data[off..off + endOffset], user', 0);
      }
    }
  }

  /** Gathering a zone from the master copies and scattering it over the user pages
      makes the user's bytes the master's exactly on start..end, and changes no other. */
  method RestoreZone(first: array<byte>, second: array<byte>, start: nat, end: nat, numPages: nat,
                     user: array<byte>, user': array<byte>)
    requires 1 <= numPages <= MAX_PAGES && first.Length == PAGE && second.Length == PAGE
    requires user.Length == PAGE && user'.Length == PAGE && user != user'
    requires start < PAGE && start < end && (numPages - 1) * PAGE < end <= numPages * PAGE
    requires {first, second} !! {user, user'}
    modifies user, user'
    ensures user[..] == Opened(old(user[..]), first[..], start, Min(end, PAGE))
    ensures user'[..] == if numPages == 1 then old(user'[..]) else Opened(old(user'[..]), second[..], 0, end - PAGE)
  {
    var data := GatherZone(first, second, start, if numPages == 1 then end else end - PAGE, numPages);
    ghost var was, was' := user[..], user'[..];
    var hi := Min(end, PAGE);
    assert data[..hi - start] == first[..][start..hi];
    assert numPages == 2 ==> data[PAGE - start..end - start] == second[..][..end - PAGE];
    WriteZone(data, start, end, numPages, user, user');
    assert user[..] == was[..start] + first[..][start..hi] + was[hi..];
  }

  // ---------------------------------------------------------------- finding the pages

  datatype Finding = Registered | JustRegistered | NotUsable | NotMapped

  function FindingOf(s: State, q: nat, vma: Vma): Finding
    requires StateShape(s)
  {
    if q in s.pages then
      (if s.pages[q].masters != [] then Registered
       else if TrapPageUsable(s.pages[q]) then JustRegistered
       else NotUsable)
    else if vma.NoVma? then NotMapped
    else NotUsable
  }

  function FoundState(s: State, q: nat, vma: Vma): State
    requires StateShape(s)
  {
    if FindingOf(s, q, vma).JustRegistered? then Put(s, q, Entered(q, s.pages[q])) else s
  }

  // find_current_page, and page_not_fetched_yet when it finds nothing.  That the page could
  // not be closed is only reported.
  method FindPage(space: AddressSpace, q: nat, vma: Vma) returns (f: Finding)
    requires StateShape(space.Abs())
    modifies space`pages
    ensures f == FindingOf(old(space.Abs()), q, vma)
    ensures space.Abs() == FoundState(old(space.Abs()), q, vma)
  {
    if q !in space.pages {
      return if vma.NoVma? then NotMapped else NotUsable;
    }
    var pg := space.pages[q];
    if pg.masters != [] {
      return Registered;
    }
    if pg.exeDeny && !pg.origExe {
      return NotUsable;
    }
    var ok := space.RegisterPage(q);
    if !ok {
      return NotUsable;
    }
    ok := space.CloseOuterZone(q, 0, PAGE, 1);
    assert CloseOuter(pg.visible, 0, PAGE, 1) == MaskedPage();
    return JustRegistered;
  }

  // One page of the search: the gap in what the page shows, and the disassembly of
  // its master copy up to the gap's end.
  method SearchTrapPage(t: Tables, master: seq<byte>, visible: seq<byte>, startOffset: nat, st: ZoneStats)
    returns (code: int, endOffset: nat, nextZone: int)
    requires TablesOk(t) && IsPage(master) && IsPage(visible) && startOffset < PAGE
    modifies st
    ensures var g := GapFrom(visible, startOffset, startOffset);
      var r := Scan(t, master[startOffset..Limit(g)]);
      && nextZone == GapCode(g) && code == CodeOf(r) && st.stats == Add(old(st.stats), r.stats)
      && endOffset == if r.Failed? then Limit(g) else startOffset + r.end
  {
    hide Scan, Add, TablesOk;
    var page := new byte[PAGE];
    CopyIn(visible, page, 0);
    assert page[..] == page[0..PAGE];
    nextZone := FindFirstInvalidOpcodeByte(page, startOffset);
    var data := new byte[1 + PAGE];
    CopyIn(master, data, 1);
    var limit := if nextZone == PAGE_END then PAGE else nextZone;
    SliceOfSlice(data[..], 1, 1 + PAGE, startOffset, limit);
    var end;
    code, end := DisassembleCode(t, data, 1 + startOffset, 1 + limit, st);
    endOffset := end - 1;
  }

  // ---------------------------------------------------------------- the search loop

  datatype SearchExit = GaveUp | WholeFirstPage | ZoneFound

  // The search has ended as the extent z says.
  predicate Matches(z: TrapExtent, exit: SearchExit, n: nat, end: nat, at: nat, st: Stats, st': Stats) {
    match z
    case GiveUp(_) => exit.GaveUp?
    case WholePage(pages, _, a) => exit.WholeFirstPage? && n == pages && at == a
    case Zone(pages, e, _, stats) => exit.ZoneFound? && n == pages && end == e && st' == Add(st, stats)
  }

  lemma FoundAfter(s: State, p: nat, vma: Vma)
    requires StateShape(s)
    ensures AfterOf(s, p, vma).Usable? ==> IsPage(AfterOf(s, p, vma).master) && IsPage(AfterOf(s, p, vma).visible)
    ensures AfterOf(s, p, vma).Unmapped? <==> FindingOf(s, p + 1, vma).NotMapped?
    ensures AfterOf(s, p, vma).Unusable? <==> FindingOf(s, p + 1, vma).NotUsable?
    ensures EnterNext(s, p) == FoundState(s, p + 1, vma)
    ensures AfterOf(s, p, vma).Usable? ==>
      (p + 1 in s.pages && var q := FoundState(s, p + 1, vma).pages[p + 1];
       q.masters != [] && AfterOf(s, p, vma) == Usable(q.masters[0], q.visible))
    ensures AfterOf(s, p, vma).Usable? && s.pages[p + 1].masters == [] <==> FindingOf(s, p + 1, vma).JustRegistered?
  {
    hide Registrable;
    if p + 1 in s.pages && s.pages[p + 1].masters != [] {
      MasterIsPage(s.pages[p + 1]);
    }
  }

  // The first turn of the search, case by case.
  lemma FirstTurnCases(t: Tables, m: seq<byte>, vis: seq<byte>, off: nat, after: After)
    requires IsPage(m) && IsPage(vis) && off < PAGE && Stitchable(t, m, vis, off, after)
    requires after.Usable? ==> IsPage(after.master) && IsPage(after.visible)
    ensures var z, none := TrapSearch(t, m, vis, off, after), Crossing(false, false);
      var g := GapFrom(vis, off, off);
      var r := Scan(t, m[off..Limit(g)]);
      && (r.Failed? ==> z == WholePage(1, none, off))
      && (r.Found? ==> z == Zone(1, off + r.end, none, r.stats))
      && (r.Continue? && g.UpTo? ==> z == Zone(1, g.offset, none, r.stats))
      && (r.Continue? && g.PageEnd? ==>
            (after.Usable? ==> PAGE - (off + r.end) <= MAX_INSTRUCTION)
            && z == SecondPage(t, m, off, off + r.end, after, r.stats))
      && (Reaches(t, m, vis, off) <==> r.Continue? && g.PageEnd?)
  {
    hide Scan, SecondPage;
  }

  lemma SecondPageCases(t: Tables, m: seq<byte>, off: nat, e: nat, after: After, s: Stats)
    requires IsPage(m) && off <= e <= PAGE
    requires after.Usable? ==> IsPage(after.master) && IsPage(after.visible) && PAGE - e <= MAX_INSTRUCTION
    ensures var z, c := SecondPage(t, m, off, e, after, s), Crossing(Unaligned(e), false);
      match after
      case Unmapped => z == GiveUp(c)
      case Unusable => z == Zone(1, e, c, s)
      case Usable(m', v') =>
        match CrossOffset(t, m, m', e)
        case NoCross(s') => z == Zone(1, e, c, Add(s, s'))
        case Cross(o, s') => z == SecondTurn(t, m', v', o, c, Add(s, s'))
  {
    hide CrossOffset, SecondTurn;
  }

  lemma SecondTurnCases(t: Tables, m: seq<byte>, vis: seq<byte>, o: nat, c: Crossing, s: Stats)
    requires IsPage(m) && IsPage(vis) && o <= MAX_INSTRUCTION && !c.second
    ensures var z, g := SecondTurn(t, m, vis, o, c, s), GapFrom(vis, o, o);
      var r := Scan(t, m[o..Limit(g)]);
      var s' := Add(s, r.stats);
      && (r.Failed? ==> z == WholePage(2, c, o))
      && (r.Found? ==> z == Zone(2, PAGE + o + r.end, c, s'))
      && (r.Continue? && g.UpTo? ==> z == Zone(2, PAGE + g.offset, c, s'))
      && (r.Continue? && g.PageEnd? ==> z == Zone(2, PAGE + o + r.end, Crossing(c.first, Unaligned(o + r.end)), s'))
  {
    hide Scan, Add;
  }

  // The cross-page table does not matter to the page table of registered copies.
  lemma FlagCommutes(s: State, c: Crossing, p: nat, q: nat, vma: Vma)
    requires StateShape(s)
    ensures StateShape(Flag(s, c, p))
    ensures FindingOf(Flag(s, c, p), q, vma) == FindingOf(s, q, vma)
    ensures FoundState(Flag(s, c, p), q, vma) == Flag(FoundState(s, q, vma), c, p)
  {
    hide TrapPageUsable;
  }

  // The search over s, from registered page p on, has ended as TrapSearch says.
  ghost predicate Exited(t: Tables, s: State, p: nat, off: nat, vma: Vma, st: Stats,
                         s': State, st': Stats, exit: SearchExit, n: nat, end: nat, at: nat,
                         entered: bool, reached: bool)
    requires StateShape(s) && p in s.pages && off < PAGE && s.pages[p].masters != [] && IsPage(s.pages[p].masters[0])
    requires Stitchable(t, s.pages[p].masters[0], s.pages[p].visible, off, AfterOf(s, p, vma))
  {
    FoundAfter(s, p, vma);
    var m, vis, after := s.pages[p].masters[0], s.pages[p].visible, AfterOf(s, p, vma);
    var z := TrapSearch(t, m, vis, off, after);
    && s' == Flag(if Reaches(t, m, vis, off) then EnterNext(s, p) else s, z.crossing, p)
    && Matches(z, exit, n, end, at, st, st')
    && reached == Reaches(t, m, vis, off)
    && entered == (reached && after.Usable? && s.pages[p + 1].masters == [])
  }

  // The first turn: what the gap and the disassembly of the first page give.
  function FirstGap(s: State, p: nat, off: nat): Gap
    requires StateShape(s) && p in s.pages && off < PAGE
  {
    GapFrom(s.pages[p].visible, off, off)
  }

  function FirstRun(t: Tables, s: State, p: nat, off: nat): Result
    requires StateShape(s) && p in s.pages && off < PAGE && s.pages[p].masters != [] && IsPage(s.pages[p].masters[0])
  {
    Scan(t, s.pages[p].masters[0][off..Limit(FirstGap(s, p, off))])
  }

  // The state and the crossing once the search has looked for the second page.
  function SecondState(t: Tables, s: State, p: nat, off: nat, vma: Vma): State
    requires StateShape(s) && p in s.pages && off < PAGE && s.pages[p].masters != [] && IsPage(s.pages[p].masters[0])
    requires FirstRun(t, s, p, off).Continue?
  {
    Flag(FoundState(s, p + 1, vma), Crossing(Unaligned(off + FirstRun(t, s, p, off).end), false), p)
  }

  lemma ExitFirst(t: Tables, s: State, p: nat, off: nat, vma: Vma, st: Stats, end: nat)
    requires StateShape(s) && p in s.pages && off < PAGE && s.pages[p].masters != [] && IsPage(s.pages[p].masters[0])
    requires Stitchable(t, s.pages[p].masters[0], s.pages[p].visible, off, AfterOf(s, p, vma))
    requires FirstRun(t, s, p, off).Continue? ==> FirstGap(s, p, off).UpTo? && end == FirstGap(s, p, off).offset
    requires FirstRun(t, s, p, off).Found? ==> end == off + FirstRun(t, s, p, off).end
    ensures var r := FirstRun(t, s, p, off);
      Exited(t, s, p, off, vma, st, s, Add(st, r.stats), if r.Failed? then WholeFirstPage else ZoneFound,
             1, end, off, false, false)
  {
    hide Add, Scan, Flag, AfterOf, EnterNext, TrapSearch, Reaches, GapFrom;
    FoundAfter(s, p, vma);
    FirstTurnCases(t, s.pages[p].masters[0], s.pages[p].visible, off, AfterOf(s, p, vma));
    FlagOneByOne(s, false, false, p);
  }

  lemma ExitNext(t: Tables, s: State, p: nat, off: nat, vma: Vma, st: Stats, end: nat, at: nat)
    requires StateShape(s) && p in s.pages && off < PAGE && s.pages[p].masters != [] && IsPage(s.pages[p].masters[0])
    requires Stitchable(t, s.pages[p].masters[0], s.pages[p].visible, off, AfterOf(s, p, vma))
    requires FirstRun(t, s, p, off).Continue? && FirstGap(s, p, off).PageEnd? && end == off + FirstRun(t, s, p, off).end
    ensures end <= PAGE
    ensures FindingOf(s, p + 1, vma).Registered? || FindingOf(s, p + 1, vma).JustRegistered? ==>
      PAGE - end <= MAX_INSTRUCTION
    ensures var f, s' := FindingOf(s, p + 1, vma), SecondState(t, s, p, off, vma);
      var st1 := Add(st, FirstRun(t, s, p, off).stats);
      && (f.NotMapped? ==> Exited(t, s, p, off, vma, st, s', st1, GaveUp, 2, end, at, false, true))
      && (f.NotUsable? ==> Exited(t, s, p, off, vma, st, s', st1, ZoneFound, 1, end, at, false, true))
      && (f.Registered? || f.JustRegistered? ==>
            (p + 1 in s'.pages && s'.pages[p + 1].masters != [] && IsPage(s'.pages[p + 1].masters[0])
             && var x := CrossOffset(t, s.pages[p].masters[0], s'.pages[p + 1].masters[0], end);
                x.NoCross? ==>
                  Exited(t, s, p, off, vma, st, s', Add(st1, x.stats), ZoneFound, 1, end, at, f.JustRegistered?, true)))
  {
    hide Add, Scan, AfterOf, EnterNext, TrapSearch, Reaches, GapFrom;
    hide CrossOffset, SecondPage, FoundState, FindingOf, Unaligned, Stitchable;
    var m, after := s.pages[p].masters[0], AfterOf(s, p, vma);
    FoundAfter(s, p, vma);
    FirstTurnCases(t, m, s.pages[p].visible, off, after);
    SecondPageCases(t, m, off, end, after, FirstRun(t, s, p, off).stats);
    if after.Usable? {
      AddAssociative(st, FirstRun(t, s, p, off).stats, CrossOffset(t, m, after.master, end).stats);
    }
  }

  lemma ExitSecond(t: Tables, s: State, p: nat, off: nat, vma: Vma, st: Stats, o: nat, end: nat)
    requires StateShape(s) && p in s.pages && off < PAGE && s.pages[p].masters != [] && IsPage(s.pages[p].masters[0])
    requires Stitchable(t, s.pages[p].masters[0], s.pages[p].visible, off, AfterOf(s, p, vma))
    requires FirstRun(t, s, p, off).Continue? && FirstGap(s, p, off).PageEnd?
    requires var e := off + FirstRun(t, s, p, off).end; e <= PAGE && PAGE - e <= MAX_INSTRUCTION
    requires FindingOf(s, p + 1, vma).Registered? || FindingOf(s, p + 1, vma).JustRegistered?
    requires var s' := SecondState(t, s, p, off, vma);
      && p + 1 in s'.pages && s'.pages[p + 1].masters != []
      && IsPage(s'.pages[p + 1].masters[0]) && IsPage(s'.pages[p + 1].visible)
    requires var s' := SecondState(t, s, p, off, vma);
      var x := CrossOffset(t, s.pages[p].masters[0], s'.pages[p + 1].masters[0], off + FirstRun(t, s, p, off).end);
      x.Cross? && o == x.offset
    ensures var r, s' := FirstRun(t, s, p, off), SecondState(t, s, p, off, vma);
      var nx := s'.pages[p + 1];
      var x, g := CrossOffset(t, s.pages[p].masters[0], nx.masters[0], off + r.end), GapFrom(nx.visible, o, o);
      var r' := Scan(t, nx.masters[0][o..Limit(g)]);
      var st' := Add(Add(Add(st, r.stats), x.stats), r'.stats);
      var entered := FindingOf(s, p + 1, vma).JustRegistered?;
      && (r'.Failed? ==> Exited(t, s, p, off, vma, st, s', st', WholeFirstPage, 2, end, o, entered, true))
      && (r'.Found? && end == PAGE + o + r'.end ==>
            Exited(t, s, p, off, vma, st, s', st', ZoneFound, 2, end, o, entered, true))
      && (r'.Continue? && g.UpTo? && end == PAGE + g.offset ==>
            Exited(t, s, p, off, vma, st, s', st', ZoneFound, 2, end, o, entered, true))
      && (r'.Continue? && g.PageEnd? && end == PAGE + o + r'.end ==>
            Exited(t, s, p, off, vma, st, Flag(s', Crossing(Unaligned(o + r'.end), false), p + 1), st',
                   ZoneFound, 2, end, o, entered, true))
  {
    hide Add, Scan, AfterOf, EnterNext, TrapSearch, Reaches, GapFrom, CrossOffset, SecondTurn, FoundState, FindingOf;
    hide Unaligned, Stitchable, Flag, SecondState, FirstRun, FirstGap;
    var after, r := AfterOf(s, p, vma), FirstRun(t, s, p, off);
    SecondEntered(t, s, p, off, vma, o);
    var x := CrossOffset(t, s.pages[p].masters[0], after.master, off + r.end);
    var c := Crossing(Unaligned(off + r.end), false);
    SecondTurnCases(t, after.master, after.visible, o, c, Add(r.stats, x.stats));
    var r' := Scan(t, after.master[o..Limit(GapFrom(after.visible, o, o))]);
    AddAssociative(st, r.stats, x.stats);
    AddAssociative(st, Add(r.stats, x.stats), r'.stats);
    if r'.Continue? {
      FlagOneByOne(EnterNext(s, p), c.first, Unaligned(o + r'.end), p);
    }
  }

  // A search that entered the second page goes on there from the crossing.
  lemma SecondEntered(t: Tables, s: State, p: nat, off: nat, vma: Vma, o: nat)
    requires StateShape(s) && p in s.pages && off < PAGE && s.pages[p].masters != [] && IsPage(s.pages[p].masters[0])
    requires Stitchable(t, s.pages[p].masters[0], s.pages[p].visible, off, AfterOf(s, p, vma))
    requires FirstRun(t, s, p, off).Continue? && FirstGap(s, p, off).PageEnd?
    requires var e := off + FirstRun(t, s, p, off).end; e <= PAGE && PAGE - e <= MAX_INSTRUCTION
    requires FindingOf(s, p + 1, vma).Registered? || FindingOf(s, p + 1, vma).JustRegistered?
    requires var s' := SecondState(t, s, p, off, vma);
      p + 1 in s'.pages && s'.pages[p + 1].masters != [] && IsPage(s'.pages[p + 1].masters[0])
    requires var s' := SecondState(t, s, p, off, vma);
      var x := CrossOffset(t, s.pages[p].masters[0], s'.pages[p + 1].masters[0], off + FirstRun(t, s, p, off).end);
      x.Cross? && o == x.offset
    ensures AfterOf(s, p, vma).Usable? && IsPage(AfterOf(s, p, vma).master) && IsPage(AfterOf(s, p, vma).visible)
    ensures Reaches(t, s.pages[p].masters[0], s.pages[p].visible, off) && o <= MAX_INSTRUCTION
    ensures var r, m, after := FirstRun(t, s, p, off), s.pages[p].masters[0], AfterOf(s, p, vma);
      var c := Crossing(Unaligned(off + r.end), false);
      && SecondState(t, s, p, off, vma) == Flag(EnterNext(s, p), c, p)
      && after == Usable(SecondState(t, s, p, off, vma).pages[p + 1].masters[0],
                         SecondState(t, s, p, off, vma).pages[p + 1].visible)
      && TrapSearch(t, m, s.pages[p].visible, off, after)
         == SecondTurn(t, after.master, after.visible, o, c,
                       Add(r.stats, CrossOffset(t, m, after.master, off + r.end).stats))
      && (s.pages[p + 1].masters == [] <==> FindingOf(s, p + 1, vma).JustRegistered?)
  {
    hide Add, Scan, AfterOf, EnterNext, TrapSearch, Reaches, GapFrom;
    hide CrossOffset, SecondPage, SecondTurn, FoundState, FindingOf;
    hide Unaligned, Stitchable, Flag;
    var m, after, r := s.pages[p].masters[0], AfterOf(s, p, vma), FirstRun(t, s, p, off);
    FoundAfter(s, p, vma);
    FlagKeepsPages(FoundState(s, p + 1, vma), Crossing(Unaligned(off + r.end), false), p);
    FirstTurnCases(t, m, s.pages[p].visible, off, after);
    SecondPageCases(t, m, off, off + r.end, after, r.stats);
  }

  lemma FlagKeepsPages(s: State, c: Crossing, p: nat)
    ensures Flag(s, c, p).pages == s.pages
  {
  }

  lemma PageBytes(s: State, p: nat)
    requires StateShape(s) && p in s.pages
    ensures IsPage(s.pages[p].visible)
  {
  }

  // Looking for the page after the first one, and crossing into it.
  method EnterSecondPage(space: AddressSpace, q: nat, prev: seq<byte>, endOffset: nat, vma: Vma, st: ZoneStats)
    returns (f: Finding, ok: bool, startOffset: nat)
    requires TablesOk(space.tables) && StateShape(space.Abs()) && IsPage(prev)
    requires endOffset <= PAGE
    requires FindingOf(space.Abs(), q, vma).Registered? || FindingOf(space.Abs(), q, vma).JustRegistered? ==>
      PAGE - endOffset <= MAX_INSTRUCTION
    requires DecodeOne(space.tables, prev[endOffset..]).Incomplete?
    modifies space`pages, st
    ensures f == FindingOf(old(space.Abs()), q, vma)
    ensures space.Abs() == FoundState(old(space.Abs()), q, vma)
    ensures f.NotMapped? || f.NotUsable? ==> st.stats == old(st.stats)
    ensures f.Registered? || f.JustRegistered? ==>
      (q in space.pages && space.pages[q].masters != []
       && IsPage(space.pages[q].masters[0]) && IsPage(space.pages[q].visible)
       && var c := CrossOffset(space.tables, prev, space.pages[q].masters[0], endOffset);
          ok == c.Cross? && (c.Cross? ==> startOffset == c.offset) && st.stats == Add(old(st.stats), c.stats))
  {
    hide DecodeOne, CrossOffset, TablesOk, Add, Registrable;
    f := FindPage(space, q, vma);
    ok, startOffset := false, 0;
    if f.Registered? || f.JustRegistered? {
      PageBytes(space.Abs(), q);
      MasterIsPage(space.pages[q]);
      ok, startOffset := HandleCrossPage(space.tables, space.pages[q].masters[0], prev, endOffset, st);
    }
  }

  /** The page search of invalid_op_handler, from the registered page p on.  A second
      page that is entered is registered and closed on the way. */
  method SearchTrap(space: AddressSpace, p: nat, off: nat, vma: Vma, st: ZoneStats)
    returns (exit: SearchExit, numPages: nat, end: nat, startOffset: nat, entered: bool, reached: bool)
    requires TablesOk(space.tables) && StateShape(space.Abs()) && p in space.pages && off < PAGE
    requires space.pages[p].masters != [] && IsPage(space.pages[p].masters[0])
    requires Stitchable(space.tables, space.pages[p].masters[0], space.pages[p].visible, off,
                        AfterOf(space.Abs(), p, vma))
    modifies space`pages, space`partialStart, space`partialEnd, st
    ensures Exited(space.tables, old(space.Abs()), p, off, vma, old(st.stats),
                   space.Abs(), st.stats, exit, numPages, end, startOffset, entered, reached)
  {
    hide Scan, Add, TablesOk, DecodeOne, FindingOf, FoundState, Unaligned;
    hide Exited, Stitchable, CrossOffset, GapFrom, Flag;
    ghost var t, s, st0 := space.tables, space.Abs(), st.stats;
    PageBytes(s, p);
    FlagOneByOne(s, false, false, p);
    ghost var m, r, g := s.pages[p].masters[0], FirstRun(t, s, p, off), FirstGap(s, p, off);
    var pageAddr := p;
    numPages, startOffset, entered, reached := 1, off, false, false;
    while true
      invariant 1 <= numPages <= MAX_PAGES && pageAddr == p + numPages - 1
      invariant numPages == 1 ==> space.Abs() == s && st.stats == st0 && startOffset == off && !entered
      invariant numPages == 2 ==> r.Continue? && g.PageEnd?
      invariant numPages == 2 ==> off + r.end <= PAGE && PAGE - (off + r.end) <= MAX_INSTRUCTION
      invariant numPages == 2 ==> space.Abs() == SecondState(t, s, p, off, vma)
      invariant numPages == 2 ==> FindingOf(s, p + 1, vma).Registered? || FindingOf(s, p + 1, vma).JustRegistered?
      invariant numPages == 2 ==> p + 1 in space.pages && space.pages[p + 1].masters != []
      invariant numPages == 2 ==> IsPage(space.pages[p + 1].masters[0]) && IsPage(space.pages[p + 1].visible)
      invariant numPages == 2 ==>
        var x := CrossOffset(t, m, space.pages[p + 1].masters[0], off + r.end);
        x.Cross? && startOffset == x.offset && st.stats == Add(Add(st0, r.stats), x.stats)
      invariant numPages == 2 ==> entered == FindingOf(s, p + 1, vma).JustRegistered?
      invariant reached == (numPages == 2)
      decreases MAX_PAGES - numPages
    {
      var page := space.pages[pageAddr];
      var code, endOffset, nextZone := SearchTrapPage(space.tables, page.masters[0], page.visible, startOffset, st);
      var gapped := nextZone != PAGE_END && code == DISASSEMBLE_CONTINUE;
      end := (numPages - 1) * PAGE + if gapped then nextZone else endOffset;
      if numPages == 2 {
        ExitSecond(t, s, p, off, vma, st0, startOffset, end);
        FlagOneByOne(SecondState(t, s, p, off, vma), false, false, p + 1);
      } else if code != DISASSEMBLE_CONTINUE || nextZone != PAGE_END {
        ExitFirst(t, s, p, off, vma, st0, end);
      }
      if code == DISASSEMBLE_ERROR {
        return WholeFirstPage, numPages, end, startOffset, entered, reached;
      } else if code != DISASSEMBLE_CONTINUE || nextZone != PAGE_END {
        return ZoneFound, numPages, end, startOffset, entered, reached;
      }
      if Unaligned(endOffset) {
        space.RegisterCrossing(pageAddr);
      }
      if numPages >= MAX_PAGES {
        return ZoneFound, numPages, end, startOffset, entered, reached;
      }
      ExitNext(t, s, p, off, vma, st0, end, off);
      FlagCommutes(s, Crossing(Unaligned(endOffset), false), p, p + 1, vma);
      assert m[off..Limit(g)] == m[off..];
      StoppedAt(t, m, off);
      pageAddr, numPages := pageAddr + 1, numPages + 1;
      var f, ok, lastInstr;
      f, ok, lastInstr := EnterSecondPage(space, pageAddr, page.masters[0], endOffset, vma, st);
      if f.NotMapped? {
        return GaveUp, numPages, end, startOffset, false, true;
      }
      entered, reached := f.JustRegistered?, true;
      if f.NotUsable? || !ok {
        return ZoneFound, numPages - 1, end, startOffset, entered, true;
      }
      startOffset := lastInstr;
    }
  }

  // ---------------------------------------------------------------- the handler

  // The page-table bits of the pages the handler registered itself.
  method AllowNotFetched(space: AddressSpace, p: nat, numPages: nat, x: Exit)
    requires 1 <= numPages <= MAX_PAGES && p in space.pages && (numPages == 2 && x.second ==> p + 1 in space.pages)
    modifies space`pages
    ensures Outcome(space.Abs(), true) == TrapExit(old(space.Abs()), p, numPages, x)
  {
    hide AllowTrapped;
    ghost var s := space.Abs();
    ghost var s1 := if x.first then Put(s, p, AllowTrapped(s.pages[p], x.vmaWrite)) else s;
    var i := 0;
    while i < numPages
      invariant 0 <= i <= numPages
      invariant i == 0 ==> space.Abs() == s
      invariant i == 1 ==> space.Abs() == s1
      invariant i == 2 ==>
        space.Abs() == if x.second then Put(s1, p + 1, AllowTrapped(s1.pages[p + 1], x.vmaWrite)) else s1
    {
      if if i == 0 then x.first else x.second {
        AllowNotFetchedPage(space, p + i, x.vmaWrite);
      }
      i := i + 1;
    }
  }

  method AllowNotFetchedPage(space: AddressSpace, q: nat, vmaWrite: bool)
    requires q in space.pages
    modifies space`pages
    ensures space.Abs() == Put(old(space.Abs()), q, AllowTrapped(old(space.pages[q]), vmaWrite))
  {
    var pg := space.pages[q].(exeDeny := false);
    if vmaWrite {
      pg := pg.(write := false);
      pg := pg.(origWrite := true);
    }
    space.pages := space.pages[q := pg.(checkDeny := true)];
  }

  // restore_page of the handler: the whole master copy.  The test for mask bytes is made where
  // the search was last started.
  method RestoreWholePage(space: AddressSpace, p: nat, startOffset: nat, numPages: nat, x: Exit,
                          v: Verdicts) returns (handled: bool)
    requires p in space.pages && PageShape(space.pages[p]) && space.pages[p].masters != []
    requires 1 <= numPages <= MAX_PAGES
    requires numPages == 2 && x.second ==> p + 1 in space.pages
    modifies space`pages, space`partialStart, space`partialEnd
    ensures Outcome(space.Abs(), handled) == TrapWhole(old(space.Abs()), p, startOffset, numPages, x, v)
  {
    hide TrapExit, Checked;
    MasterIsPage(space.pages[p]);
    var master := space.pages[p].masters[0];
    CheckedFrame(space.pages[p], master, 0, PAGE);
    if AllMaskedAt(master, startOffset) || !v.page {
      return false;
    }
    space.pages := space.pages[p := Checked(space.pages[p], master, 0, PAGE)];
    if v.pageOver {
      return false;
    }
    var pg := space.pages[p];
    ghost var was: map<nat, Page> := old(space.pages);
    assert was[p := pg][p := pg.(visible := master, masters := pg.masters[1..])]
        == was[p := pg.(visible := master, masters := pg.masters[1..])];
    space.pages := space.pages[p := pg.(visible := pg.masters[0], masters := pg.masters[1..])];
    space.partialStart, space.partialEnd := space.partialStart + {p}, space.partialEnd + {p};
    AllowNotFetched(space, p, numPages, x);
    handled := true;
  }

  // The history records the bytes of the zone, page by page.
  method RecordZone(space: AddressSpace, p: nat, off: nat, numPages: nat, end: nat, m: seq<byte>, m': seq<byte>)
    requires p in space.pages && IsPage(m) && off < PAGE && off <= end
    requires 1 <= numPages <= MAX_PAGES
    requires (numPages == 2 ==> p + 1 in space.pages && IsPage(m') && PAGE <= end <= 2 * PAGE)
    requires numPages == 1 ==> end <= PAGE
    modifies space`pages
    ensures var s1 := Put(old(space.Abs()), p, Checked(old(space.pages[p]), m, off, Min(end, PAGE)));
      space.Abs() == if numPages == 2 then Put(s1, p + 1, Checked(s1.pages[p + 1], m', 0, end - PAGE)) else s1
  {
    hide Checked;
    space.pages := space.pages[p := Checked(space.pages[p], m, off, Min(end, PAGE))];
    if numPages == 2 {
      space.pages := space.pages[p + 1 := Checked(space.pages[p + 1], m', 0, end - PAGE)];
    }
  }

  method Loaded(bytes: seq<byte>) returns (a: array<byte>)
    ensures fresh(a) && a[..] == bytes
  {
    a := new byte[|bytes|];
    CopyIn(bytes, a, 0);
    assert a[..] == a[0..|bytes|];
  }

  // restore_zone_bytes: the zone is gathered from the copies and scattered over the user pages.
  method ScatterZone(space: AddressSpace, p: nat, off: nat, numPages: nat, end: nat, m: seq<byte>, m': seq<byte>)
    requires p in space.pages && IsPage(m) && IsPage(space.pages[p].visible) && off < PAGE && off < end
    requires 1 <= numPages <= MAX_PAGES && (numPages - 1) * PAGE < end <= numPages * PAGE
    requires numPages == 2 ==> p + 1 in space.pages && IsPage(m') && IsPage(space.pages[p + 1].visible)
    modifies space`pages
    ensures var s3 := Put(old(space.Abs()), p, Open(old(space.pages[p]), m, off, Min(end, PAGE)));
      space.Abs() == if numPages == 2 then Put(s3, p + 1, Open(s3.pages[p + 1], m', 0, end - PAGE)) else s3
  {
    var first := Loaded(m);
    var user := Loaded(space.pages[p].visible);
    var second := Loaded(if numPages == 2 then m' else m);
    var user' := Loaded(if numPages == 2 then space.pages[p + 1].visible else m);
    RestoreZone(first, second, off, end, numPages, user, user');
    space.pages := space.pages[p := space.pages[p].(visible := user[..])];
    if numPages == 2 {
      space.pages := space.pages[p + 1 := space.pages[p + 1].(visible := user'[..])];
    }
  }

  // The check of the zone, its gathering and its restoring.
  method OpenNextZone(space: AddressSpace, p: nat, off: nat, numPages: nat, end: nat, ghost master': seq<byte>,
                      x: Exit, v: Verdicts)
    returns (handled: bool)
    requires StateShape(space.Abs()) && p in space.pages && space.pages[p].masters != [] && off < PAGE
    requires 1 <= numPages <= MAX_PAGES && off <= end <= numPages * PAGE && (numPages - 1) * PAGE <= end
    requires numPages == 2 ==> PAGE < end && p + 1 in space.pages && space.pages[p + 1].masters != []
    requires IsPage(space.pages[p].masters[0])
    requires numPages == 2 ==> master' == space.pages[p + 1].masters[0] && IsPage(master')
    modifies space`pages, space`partialStart, space`partialEnd
    ensures Outcome(space.Abs(), handled)
         == TrapZone(old(space.Abs()), p, off, numPages, end, old(space.pages[p]).masters[0], master', x, v)
  {
    hide TrapExit, TrapWhole, PageShape, Checked, Open;
    ghost var s := space.Abs();
    var m, hi := space.pages[p].masters[0], Min(end, PAGE);
    var m' := if numPages == 2 then space.pages[p + 1].masters[0] else [];
    PageBytes(s, p);
    CheckedFrame(s.pages[p], m, off, hi);
    if numPages == 2 {
      PageBytes(s, p + 1);
      CheckedFrame(s.pages[p + 1], m', 0, end - PAGE);
    }
    if !v.zone {
      return false;
    }
    RecordZone(space, p, off, numPages, end, m, m');
    if v.zoneOver {
      return false;
    }
    if end <= off {
      handled := RestoreWholePage(space, p, off, numPages, x, v);
      return;
    }
    if m[off] == INVALID_OPCODE {
      return false;
    }
    ScatterZone(space, p, off, numPages, end, m, m');
    AllowNotFetched(space, p, numPages, x);
    handled := true;
  }

  // What the handler does once the search is over.
  method ActOnExit(space: AddressSpace, p: nat, off: nat, exit: SearchExit, numPages: nat, zoneEnd: nat,
                   startOffset: nat, x: Exit, v: Verdicts,
                   ghost s: State, ghost z: TrapExtent, ghost master': seq<byte>, ghost st: Stats, ghost st': Stats)
    returns (handled: bool)
    requires StateShape(s) && p in s.pages && off < PAGE && s.pages[p].masters != []
    requires space.Abs() == Flag(s, z.crossing, p) && Matches(z, exit, numPages, zoneEnd, startOffset, st, st')
    requires x.second ==> p + 1 in s.pages
    requires z.WholePage? ==> 1 <= z.pages <= MAX_PAGES
    requires z.Zone? ==> 1 <= z.pages <= MAX_PAGES && off <= z.end <= z.pages * PAGE
    requires z.Zone? && z.pages == 2 ==> PAGE < z.end && p + 1 in s.pages && s.pages[p + 1].masters != []
    requires z.Zone? && z.pages == 2 ==> master' == s.pages[p + 1].masters[0] && IsPage(master')
    modifies space`pages, space`partialStart, space`partialEnd
    ensures Outcome(space.Abs(), handled) == TrapAct(s, p, off, z, master', x, v)
  {
    hide TrapWhole, TrapZone, PageShape;
    FlagKeepsPages(s, z.crossing, p);
    assert PageShape(s.pages[p]);
    MasterIsPage(s.pages[p]);
    if exit.GaveUp? {
      handled := false;
    } else if exit.WholeFirstPage? {
      handled := RestoreWholePage(space, p, startOffset, numPages, x, v);
    } else {
      var end := if zoneEnd == off then AlignUp(zoneEnd) else zoneEnd;
      handled := OpenNextZone(space, p, off, numPages, end, master', x, v);
    }
  }

  // The handler once the trapping page is registered.
  method HandleTrap(space: AddressSpace, p: nat, off: nat, vma: Vma, fetched: bool, v: Verdicts,
                    st: ZoneStats) returns (handled: bool)
    requires TablesOk(space.tables) && StateShape(space.Abs()) && p in space.pages && off < PAGE
    requires space.pages[p].masters != [] && IsPage(space.pages[p].masters[0])
    requires Stitchable(space.tables, space.pages[p].masters[0], space.pages[p].visible, off,
                        AfterOf(space.Abs(), p, vma))
    modifies space`pages, space`partialStart, space`partialEnd, st
    ensures Outcome(space.Abs(), handled) == Trapped(space.tables, old(space.Abs()), p, off, vma, fetched, v)
  {
    hide TrapAct, TrapSearch, Reaches, Stitchable, FindingOf, FoundState;
    hide Flag, TablesOk, Registrable, RegisterClosed, TrapPageUsable;
    ghost var t, s, st0 := space.tables, space.Abs(), st.stats;
    ghost var m, after := s.pages[p].masters[0], AfterOf(s, p, vma);
    FoundAfter(s, p, vma);
    PageBytes(s, p);
    TrapZoneEndsInLastPage(t, m, s.pages[p].visible, off, after);
    var lookedUp, vmWrite := LookedUp(space.Abs(), p, vma), space.pages[p].vmWrite;
    var exit, numPages, end, startOffset, entered, reached := SearchTrap(space, p, off, vma, st);
    var x := Exit(fetched, entered, if reached then lookedUp else vmWrite);
    ghost var s2 := if reached then EnterNext(s, p) else s;
    ghost var z := TrapSearch(t, m, s.pages[p].visible, off, after);
    TwoPagesReach(t, m, s.pages[p].visible, off, after);
    handled := ActOnExit(space, p, off, exit, numPages, end, startOffset, x, v,
                         s2, z, if after.Usable? then after.master else [], st0, st.stats);
  }

  /** invalid_op_handler: a trap at byte off of page p. */
  method InvalidOpHandler(space: AddressSpace, p: nat, off: nat, vma: Vma, v: Verdicts,
                          st: ZoneStats) returns (handled: bool)
    requires TablesOk(space.tables) && StateShape(space.Abs()) && p in space.pages && off < PAGE
    requires TrapReady(space.tables, space.Abs(), p, off, vma)
    modifies space`pages, space`partialStart, space`partialEnd, st
    ensures Outcome(space.Abs(), handled) == TrapStep(space.tables, old(space.Abs()), p, off, vma, v)
  {
    hide Trapped, Stitchable, Registrable, TablesOk, RegisterClosed;
    if IsAddressZero(p, off) {
      return false;
    }
    ghost var s := space.Abs();
    var f := FindPage(space, p, vma);
    if f.NotUsable? {
      return false;
    }
    MasterIsPage(TrapPage(p, s.pages[p]));
    assert s.pages[p := s.pages[p]] == s.pages;
    assert space.Abs() == Put(s, p, TrapPage(p, s.pages[p]));
    handled := HandleTrap(space, p, off, vma, f.JustRegistered?, v, st);
  }
}
