/**
 Runs from the empty address space, with the tables of the source, that end where a
 property fails.  Each one meets the exact condition under which it does.
 */
module PageWitnesses {
  import opened Ld
  import opened LdTables
  import opened LdTablesFacts
  import opened LdEncodings
  import opened Decoder
  import opened Scanner
  import opened ZoneSearch
  import opened PageMachine
  import opened PageEffects
  import opened PageBits
  import opened PageMasking
  import opened PageLocking
  import opened PageGrowth
  import opened PageSafety

  const RET: byte := 0xC3
  const NOP: byte := 0x90
  const DATA16: byte := 0x66

  // ---------------------------------------------------------------- three instructions

  lemma NopIsOneByte(w: seq<byte>)
    requires w != [] && w[0] == NOP
    ensures DecodeOne(LD, w).Complete? && DecodeOne(LD, w).len == 1 && !DecodeOne(LD, w).kind.IsBranch()
  {
    LdTablesOk();
    assert !BitAt(PREFIX_T, 0x90) && !BitAt(UD1_T, 0x90) && !BitAt(MODRM_T, 0x90);
    assert !BitAt(DATA1_T, 0x90) && !BitAt(DATA2_T, 0x90) && !BitAt(DATA66_T, 0x90);
    assert !BitAt(JCC1_T, 0x90) && !BitAt(JMP1_T, 0x90) && !BitAt(CALL1_T, 0x90) && !BitAt(RET1_T, 0x90);
    LeadIs(LD, w, 0, 0);
  }

  // What the runs need to know of the tables.
  ghost predicate Decodes(t: Tables) {
    && (forall w: seq<byte> | w != [] && w[0] == RET :: DecodeOne(t, w) == Complete(1, Ret))
    && (forall w: seq<byte> | w != [] && w[0] == NOP ::
          DecodeOne(t, w).Complete? && DecodeOne(t, w).len == 1 && !DecodeOne(t, w).kind.IsBranch())
    && DATA16 in t.prefix
  }

  lemma LdDecodes()
    ensures Decodes(LD)
  {
    hide DecodeOne;
    forall w: seq<byte> | w != [] && w[0] == RET ensures DecodeOne(LD, w) == Complete(1, Ret) {
      Return(w);
    }
    forall w: seq<byte> | w != [] && w[0] == NOP
      ensures DecodeOne(LD, w).Complete? && DecodeOne(LD, w).len == 1 && !DecodeOne(LD, w).kind.IsBranch() {
      NopIsOneByte(w);
    }
    assert BitAt(PREFIX_T, 0x66);
  }

  lemma ScanOfRet(t: Tables, w: seq<byte>)
    requires Decodes(t) && w != [] && w[0] == RET
    ensures Scan(t, w).Found? && Scan(t, w).end == 1
  {
    hide DecodeOne;
  }

  lemma ScanOfOneNop(t: Tables, w: seq<byte>)
    requires Decodes(t) && |w| == 1 && w[0] == NOP
    ensures Scan(t, w).Continue? && Scan(t, w).end == 1
  {
    hide DecodeOne;
    NothingToDecode(t);
    assert w[1..] == [];
  }

  lemma ScanOfPrefixes(t: Tables, w: seq<byte>)
    requires Decodes(t) && forall i | 0 <= i < |w| :: w[i] == DATA16
    ensures Scan(t, w).Continue? && Scan(t, w).end == 0
  {
    LeadIs(t, w, 0, |w|);
  }

  lemma ScanOfNopThenPrefixes(t: Tables, w: seq<byte>)
    requires Decodes(t) && w != [] && w[0] == NOP && forall i | 1 <= i < |w| :: w[i] == DATA16
    ensures Scan(t, w).Continue? && Scan(t, w).end == 1
  {
    hide DecodeOne, Add;
    ScanOfPrefixes(t, w[1..]);
  }

  // ---------------------------------------------------------------- pages and runs

  function FilledWith(b: byte): (r: seq<byte>)
    ensures IsPage(r) && forall i | 0 <= i < PAGE :: r[i] == b
  {
    seq(PAGE, _ => b)
  }

  function NopThenPrefixes(): (r: seq<byte>)
    ensures IsPage(r) && r[0] == NOP && forall i | 1 <= i < PAGE :: r[i] == DATA16
  {
    seq(PAGE, i => if i == 0 then NOP else DATA16)
  }

  lemma Begins(t: Tables, s: State, e: Event, es: seq<Event>)
    requires StateShape(s) && Enabled(t, s, e) && Runs(t, Step(t, s, e), es)
    ensures Runs(t, s, [e] + es) && Final(t, s, [e] + es) == Final(t, Step(t, s, e), es)
  {
    hide Step, Enabled;
    assert ([e] + es)[1..] == es;
  }

  // ---------------------------------------------------------------- mediation

  lemma EndsEarly(t: Tables)
    requires Decodes(t)
    ensures var z := FetchExtent(t, NopThenPrefixes(), Next(FilledWith(DATA16)), 0);
      z.Extent? && z.pages == 2 && z.end == 1
  {
    hide Scan, Decodes;
    var a, b := NopThenPrefixes(), FilledWith(DATA16);
    assert a[0..] == a;
    ScanOfNopThenPrefixes(t, a);
    ScanOfPrefixes(t, (a + b)[1..2 * PAGE]);
  }

  function PrefixRun(v2: bool): seq<Event> {
    [Mmap(1, NopThenPrefixes(), false, false), Mmap(2, FilledWith(DATA16), false, false), Fetch(1, 0, true, v2)]
  }

  lemma PrefixFetchBreaks(t: Tables, s: State, v2: bool)
    requires Decodes(t)
    requires s.pages == map[1 := Mapped(NopThenPrefixes(), false, false), 2 := Mapped(FilledWith(DATA16), false, false)]
    ensures StateShape(s) && Enabled(t, s, Fetch(1, 0, true, v2)) && 1 in FetchStep(t, s, 1, 0, true, v2).pages
    ensures !PageMediated(FetchStep(t, s, 1, 0, true, v2).pages[1])
  {
    hide FetchExtent, FetchStep, FetchEffect;
    EndsEarly(t);
    var a, b := s.pages[1].visible, s.pages[2].visible;
    assert a[5] != INVALID_OPCODE && a[PAGE - 5] != INVALID_OPCODE;
    assert b[5] != INVALID_OPCODE && b[PAGE - 5] != INVALID_OPCODE;
    assert Registrable(a) && Registrable(b);
    assert a[1] != INVALID_OPCODE && (1, a[1]) !in s.pages[1].checked;
    EarlyEndExactly(t, s, 1, 0, v2);
    FetchStepSafe(t, s, 1, 0, true, v2, 1);
  }

  lemma PrefixRunBreaks(t: Tables, v2: bool)
    requires Decodes(t)
    ensures Runs(t, START, PrefixRun(v2))
    ensures 1 in Final(t, START, PrefixRun(v2)).pages && !PageMediated(Final(t, START, PrefixRun(v2)).pages[1])
  {
    hide FetchStep, PageMediated, Decodes, NextOf;
    var es := PrefixRun(v2);
    var s1 := Step(t, START, es[0]);
    var s2 := Step(t, s1, es[1]);
    PrefixFetchBreaks(t, s2, v2);
    Begins(t, s2, es[2], []);
    Begins(t, s1, es[1], [es[2]]);
    Begins(t, START, es[0], [es[1], es[2]]);
    assert [es[0]] + [es[1], es[2]] == es && [es[1]] + [es[2]] == [es[1], es[2]] && [es[2]] + [] == [es[2]];
  }

  /** Mediation fails: two fresh pages with a NOP and 8191 prefixes.  The search of the first
      fetch ends at byte 1, where it stopped in the first page, with two pages counted; the
      check covers one byte, and the rest of the page is left open.  Its bits are right. */
  lemma MediationFailsOnPrefixRun(v2: bool)
    ensures Runs(LD, START, PrefixRun(v2)) && 1 in Final(LD, START, PrefixRun(v2)).pages
    ensures var pg := Final(LD, START, PrefixRun(v2)).pages[1]; BitsOk(pg) && !ExecutesChecked(pg)
  {
    hide FetchStep;
    LdDecodes();
    PrefixRunBreaks(LD, v2);
    PageTableBits(LD, PrefixRun(v2), 1);
  }

  // ---------------------------------------------------------------- pages of RET instructions

  function Rets(vmWrite: bool, write: bool): Page { Mapped(FilledWith(RET), vmWrite, write) }

  // The zone is the first byte.
  function FetchedRets(vmWrite: bool, write: bool): Page {
    AllowFirst(Checked(Register(Rets(vmWrite, write)), FilledWith(RET), 0, 1).(
      visible := CloseOuter(FilledWith(RET), 0, 1, 1)))
  }

  lemma RetsFetched(t: Tables, s: State, p: nat, vmWrite: bool, write: bool, v: bool, v2: bool)
    requires Decodes(t) && StateShape(s) && p > 0 && p in s.pages && s.pages[p] == Rets(vmWrite, write)
    requires p - 1 !in s.partialEnd
    ensures var s' := FetchStep(t, s, p, 0, v, v2);
      && s'.pages == s.pages[p := if v then FetchedRets(vmWrite, write) else Register(Rets(vmWrite, write))]
      && s'.partialEnd <= s.partialEnd
  {
    hide Decodes, Scan, CloseOuter, Checked, AllowFirst, FetchWholeAfterZone;
    var c := FilledWith(RET);
    assert c[0..] == c;
    ScanOfRet(t, c);
    assert c[5] != INVALID_OPCODE && c[PAGE - 5] != INVALID_OPCODE;
    assert Registrable(c);
  }

  // What a fetched page of them shows, and its bits.
  lemma FetchedRetsShow(vmWrite: bool, write: bool)
    requires write ==> vmWrite
    ensures var pg := FetchedRets(vmWrite, write);
      && PageShape(pg) && pg.masters == [FilledWith(RET)] && pg.visible[0] == RET
      && (forall i | 1 <= i < PAGE :: pg.visible[i] == INVALID_OPCODE)
      && !pg.exeDeny && pg.checkDeny && !pg.write && pg.vmWrite == vmWrite && pg.origExe
  {
    assert CloseEnd(1, 1) == 1;
  }

  // ---------------------------------------------------------------- masking

  // The masking of page p is broken.
  predicate Overwritten(s: State, p: nat) { p in s.pages && s.pages[p].masters != [] && !Chained(s.pages[p]) }

  // Overwriting a registered page with NOPs breaks its masking.
  lemma NopsBreak(t: Tables, s: State, p: nat)
    requires StateShape(s) && p in s.pages && s.pages[p].write && s.pages[p].masters == [FilledWith(RET)]
    ensures Enabled(t, s, UserWrite(p, FilledWith(NOP)))
    ensures !Chained(Step(t, s, UserWrite(p, FilledWith(NOP))).pages[p])
  {
    var s' := Step(t, s, UserWrite(p, FilledWith(NOP)));
    assert FilledWith(NOP)[0] == NOP && FilledWith(RET)[0] == RET;
    assert !Below(s'.pages[p].visible, s'.pages[p].masters[0]);
  }

  function MaterialisedRun(v2: bool): seq<Event> {
    [Mmap(1, FilledWith(RET), true, false), Fetch(1, 0, true, v2), Materialise(1, 0, true),
     UserWrite(1, FilledWith(NOP))]
  }

  function RefusedRun(v2: bool): seq<Event> {
    [Mmap(1, FilledWith(RET), true, true), Fetch(1, 0, false, v2), UserWrite(1, FilledWith(NOP))]
  }

  lemma MaterialisedRunBreaks(t: Tables, v2: bool)
    requires Decodes(t)
    ensures Runs(t, START, MaterialisedRun(v2)) && Overwritten(Final(t, START, MaterialisedRun(v2)), 1)
  {
    hide FetchStep, Decodes, Chained, FetchedRets;
    var es := MaterialisedRun(v2);
    var s1 := Step(t, START, es[0]);
    RetsFetched(t, s1, 1, true, false, true, v2);
    FetchedRetsShow(true, false);
    var s2 := Step(t, s1, es[1]);
    var s3 := Step(t, s2, es[2]);
    NopsBreak(t, s3, 1);
    Begins(t, s3, es[3], []);
    Begins(t, s2, es[2], [es[3]]);
    Begins(t, s1, es[1], [es[2], es[3]]);
    Begins(t, START, es[0], [es[1], es[2], es[3]]);
    assert [es[0]] + [es[1], es[2], es[3]] == es && [es[1]] + [es[2], es[3]] == [es[1], es[2], es[3]];
    assert [es[2]] + [es[3]] == [es[2], es[3]] && [es[3]] + [] == [es[3]];
  }

  lemma RefusedRunBreaks(t: Tables, v2: bool)
    requires Decodes(t)
    ensures Runs(t, START, RefusedRun(v2)) && Overwritten(Final(t, START, RefusedRun(v2)), 1)
  {
    hide FetchStep, Decodes, Chained;
    var es := RefusedRun(v2);
    var s1 := Step(t, START, es[0]);
    RetsFetched(t, s1, 1, true, true, false, v2);
    var s2 := Step(t, s1, es[1]);
    NopsBreak(t, s2, 1);
    Begins(t, s2, es[2], []);
    Begins(t, s1, es[1], [es[2]]);
    Begins(t, START, es[0], [es[1], es[2]]);
    assert [es[0]] + [es[1], es[2]] == es && [es[1]] + [es[2]] == [es[1], es[2]] && [es[2]] + [] == [es[2]];
  }

  /** Masking fails in two ways a process can bring about: a fetched page is materialised
      again with its write bit, while its copy stays registered; and the fetch of a writable
      page is refused after registering it.  In both the process then overwrites the page. */
  lemma MaskingFailsOnWrite(v2: bool)
    ensures Runs(LD, START, MaterialisedRun(v2)) && Overwritten(Final(LD, START, MaterialisedRun(v2)), 1)
    ensures Runs(LD, START, RefusedRun(v2)) && Overwritten(Final(LD, START, RefusedRun(v2)), 1)
  {
    hide Overwritten;
    LdDecodes();
    MaterialisedRunBreaks(LD, v2);
    RefusedRunBreaks(LD, v2);
  }

  // ---------------------------------------------------------------- traps

  const ACCEPTED := Verdicts(true, false, true, false)

  // A trap in a registered page of them, on an open byte or on the last one.
  lemma RetsSearched(t: Tables, vis: seq<byte>, off: nat, after: After)
    requires Decodes(t) && IsPage(vis) && off < PAGE && (vis[off] != INVALID_OPCODE || off == PAGE - 1)
    requires after.Usable? ==> IsPage(after.master) && IsPage(after.visible)
    ensures Stitchable(t, FilledWith(RET), vis, off, after) && !Reaches(t, FilledWith(RET), vis, off)
    ensures var z := TrapSearch(t, FilledWith(RET), vis, off, after);
      z.Zone? && z.pages == 1 && z.end == off + 1 && z.crossing == Crossing(false, false)
  {
    hide Decodes, Scan;
    var g := GapFrom(vis, off, off);
    assert g.PageEnd?;
    ScanOfRet(t, FilledWith(RET)[off..PAGE]);
  }

  lemma RetsTrapped(t: Tables, s: State, p: nat, off: nat)
    requires Decodes(t) && StateShape(s) && p > 0 && p in s.pages
    requires off < PAGE && s.pages[p].masters == [FilledWith(RET)]
    requires s.pages[p].visible[off] != INVALID_OPCODE || off == PAGE - 1
    ensures TrapReady(t, s, p, off, NoVma)
    ensures var r, m := TrapStep(t, s, p, off, NoVma, ACCEPTED), FilledWith(RET);
      && r.handled && r.state.partialEnd == s.partialEnd
      && r.state.pages == s.pages[p := Open(Checked(s.pages[p], m, off, off + 1), m, off, off + 1)]
  {
    hide Decodes, TrapSearch, Stitchable, Checked, Open, GapFrom, Scan;
    var pg, after := s.pages[p], AfterOf(s, p, NoVma);
    AfterShape(s, p, NoVma);
    RetsSearched(t, pg.visible, off, after);
    assert Put(s, p, TrapPage(p, pg)) == s;
  }

  function StuckRun(v2: bool): seq<Event> { [Mmap(1, FilledWith(RET), false, false), Fetch(1, 0, true, v2)] }

  lemma StuckRunStops(t: Tables, v2: bool)
    requires Decodes(t)
    ensures Runs(t, START, StuckRun(v2))
    ensures var s := Final(t, START, StuckRun(v2));
      && 1 in s.pages && s.pages[1].masters == [FilledWith(RET)] && Enabled(t, s, Trap(1, 0, NoVma, ACCEPTED))
      && var r := TrapStep(t, s, 1, 0, NoVma, ACCEPTED);
         r.handled && 1 in r.state.pages && SamePageBytes(s.pages[1], r.state.pages[1])
  {
    hide FetchStep, TrapStep, TrapReady, Decodes, FetchedRets;
    var es := StuckRun(v2);
    var s1 := Step(t, START, es[0]);
    RetsFetched(t, s1, 1, false, false, true, v2);
    FetchedRetsShow(false, false);
    var s2 := Step(t, s1, es[1]);
    Begins(t, s1, es[1], []);
    Begins(t, START, es[0], [es[1]]);
    assert [es[0]] + [es[1]] == es && [es[1]] + [] == [es[1]];
    RetsTrapped(t, s2, 1, 0);
  }

  /** Progress fails: after the first fetch of a page of RETs, a trap at its first byte, which
      is open, is handled and changes no byte and no copy of the page. */
  lemma ProgressFailsOnOpenByte(v2: bool)
    ensures Runs(LD, START, StuckRun(v2))
    ensures var s := Final(LD, START, StuckRun(v2));
      && 1 in s.pages && s.pages[1].masters != [] && Enabled(LD, s, Trap(1, 0, NoVma, ACCEPTED))
      && var r := TrapStep(LD, s, 1, 0, NoVma, ACCEPTED);
         r.handled && 1 in r.state.pages && SamePageBytes(s.pages[1], r.state.pages[1])
  {
    hide TrapStep, Enabled, SamePageBytes;
    LdDecodes();
    StuckRunStops(LD, v2);
  }

  // ---------------------------------------------------------------- growth

  const LAST: nat := PAGE - 1

  // Page 2 is fetched and opened at its last byte, and mprotected; then page 1, which runs
  // into it, is fetched.
  function CoverRun(v2: bool): seq<Event> {
    [Mmap(1, FilledWith(NOP), false, false), Mmap(2, FilledWith(RET), false, false), Fetch(2, 0, true, v2),
     Trap(2, LAST, NoVma, ACCEPTED), Mprotect(2, false)]
  }

  lemma RunsIntoRet(t: Tables, next: seq<byte>)
    requires Decodes(t) && IsPage(next) && next[0] == RET
    ensures var z := FetchExtent(t, FilledWith(NOP), Next(next), LAST);
      z.Extent? && z.pages == 2 && z.end == PAGE + 1
  {
    hide Decodes, Scan;
    var c := FilledWith(NOP);
    ScanOfOneNop(t, c[LAST..]);
    ScanOfRet(t, (c + next)[PAGE..2 * PAGE]);
  }

  lemma FetchCovers(t: Tables, s: State, v2: bool)
    requires Decodes(t) && StateShape(s) && 1 in s.pages && 2 in s.pages
    requires s.pages[1] == Mapped(FilledWith(NOP), false, false)
    requires !s.pages[2].vmWrite && s.pages[2].exeDeny
    requires s.pages[2].visible[0] == RET && s.pages[2].visible[LAST] == RET
    ensures Enabled(t, s, Fetch(1, LAST, true, v2)) && Covers(t, s, Fetch(1, LAST, true, v2), 2)
    ensures 2 in FetchStep(t, s, 1, LAST, true, v2).pages
    ensures FetchStep(t, s, 1, LAST, true, v2).pages[2].visible[LAST] == INVALID_OPCODE
  {
    hide Decodes, FetchExtent, FetchStep, AfterFetch;
    var c, vis := FilledWith(NOP), s.pages[2].visible;
    RunsIntoRet(t, vis);
    assert c[5] != INVALID_OPCODE && c[PAGE - 5] != INVALID_OPCODE;
    assert vis[0] != INVALID_OPCODE && vis[LAST] != INVALID_OPCODE;
    assert Registrable(c) && Registrable(vis);
    assert FetchEffect(t, s, 1, LAST, true, v2, 2).shown == Only(0, 1);
    FetchMakes(t, s, 1, LAST, true, v2, 2);
    FetchedBytes(s.pages[2], FetchEffect(t, s, 1, LAST, true, v2, 2));
  }

  // What holds at the end of the run.
  predicate IsCovered(t: Tables, s: State, v2: bool)
    requires StateShape(s)
  {
    && 2 in s.pages && s.pages[2].masters != [] && s.pages[2].checkDeny && s.pages[2].visible[LAST] == RET
    && Enabled(t, s, Fetch(1, LAST, true, v2))
    && var s' := FetchStep(t, s, 1, LAST, true, v2);
       2 in s'.pages && s'.pages[2].visible[LAST] == INVALID_OPCODE
  }

  // The last two events of the run.
  lemma CoverRunEnds(t: Tables, s: State, v2: bool)
    requires Decodes(t) && StateShape(s)
    requires s.pages == map[1 := Mapped(FilledWith(NOP), false, false), 2 := FetchedRets(false, false)]
    ensures Runs(t, s, CoverRun(v2)[3..]) && IsCovered(t, Final(t, s, CoverRun(v2)[3..]), v2)
  {
    hide FetchStep, TrapStep, TrapReady, Decodes, FetchedRets;
    var e, e' := CoverRun(v2)[3], CoverRun(v2)[4];
    FetchedRetsShow(false, false);
    RetsTrapped(t, s, 2, LAST);
    var s1 := Step(t, s, e);
    var s2 := Step(t, s1, e');
    FetchCovers(t, s2, v2);
    Begins(t, s1, e', []);
    Begins(t, s, e, [e']);
    assert [e] + [e'] == CoverRun(v2)[3..] && [e'] + [] == [e'];
  }

  lemma CoverRunCovers(t: Tables, v2: bool)
    requires Decodes(t)
    ensures Runs(t, START, CoverRun(v2)) && IsCovered(t, Final(t, START, CoverRun(v2)), v2)
  {
    hide FetchStep, TrapStep, TrapReady, Decodes, FetchedRets, IsCovered;
    var es := CoverRun(v2);
    var s1 := Step(t, START, es[0]);
    var s2 := Step(t, s1, es[1]);
    RetsFetched(t, s2, 2, false, false, true, v2);
    var s3 := Step(t, s2, es[2]);
    CoverRunEnds(t, s3, v2);
    Begins(t, s2, es[2], es[3..]);
    Begins(t, s1, es[1], es[2..]);
    Begins(t, START, es[0], es[1..]);
    assert [es[0]] + es[1..] == es && [es[1]] + es[2..] == es[1..] && [es[2]] + es[3..] == es[2..];
  }

  /** Growth fails between write faults: a page that was fetched, opened and then mprotected
      is closed again when the page before it is fetched and runs into it, because only its
      execute-disable bit is tested there; its last byte was open and becomes the mask. */
  lemma GrowthFailsOnNextPage(v2: bool)
    ensures Runs(LD, START, CoverRun(v2))
    ensures var s := Final(LD, START, CoverRun(v2));
      && 2 in s.pages && s.pages[2].masters != [] && s.pages[2].checkDeny && s.pages[2].visible[LAST] == RET
      && Enabled(LD, s, Fetch(1, LAST, true, v2))
      && var s' := FetchStep(LD, s, 1, LAST, true, v2);
         2 in s'.pages && s'.pages[2].visible[LAST] == INVALID_OPCODE
  {
    hide FetchStep, Enabled;
    LdDecodes();
    CoverRunCovers(LD, v2);
  }

  // ---------------------------------------------------------------- address zero

  // Page 0 is fetched at its second byte, and written at its first.
  function ZeroRun(v2: bool): seq<Event> {
    [Mmap(0, FilledWith(RET), true, false), Fetch(0, 1, true, v2), WriteFault(0, 0, true)]
  }

  lemma PageZeroFetched(t: Tables, s: State, v2: bool)
    requires Decodes(t) && s == Put(START, 0, Rets(true, false))
    ensures StateShape(s) && var s' := FetchStep(t, s, 0, 1, true, v2);
      0 in s'.pages && !s'.pages[0].exeDeny && s'.pages[0].checkDeny && s'.pages[0].vmWrite
  {
    hide Decodes, Scan, FetchStep, Masked;
    var c := FilledWith(RET);
    ScanOfRet(t, c[1..]);
    assert c[5] != INVALID_OPCODE && c[PAGE - 5] != INVALID_OPCODE;
    assert Registrable(c);
    FetchMakes(t, s, 0, 1, true, v2, 0);
    assert FetchEffect(t, s, 0, 1, true, v2, 0).permit == PermitFirst;
  }

  lemma ZeroRunBreaks(t: Tables, v2: bool)
    requires Decodes(t)
    ensures Runs(t, START, ZeroRun(v2)) && 0 in Final(t, START, ZeroRun(v2)).pages
    ensures var pg := Final(t, START, ZeroRun(v2)).pages[0]; pg.write && !pg.exeDeny && pg.checkDeny
  {
    hide FetchStep, Decodes;
    var es := ZeroRun(v2);
    var s1 := Step(t, START, es[0]);
    PageZeroFetched(t, s1, v2);
    var s2 := Step(t, s1, es[1]);
    Begins(t, s2, es[2], []);
    Begins(t, s1, es[1], [es[2]]);
    Begins(t, START, es[0], [es[1], es[2]]);
    assert [es[0]] + [es[1], es[2]] == es && [es[1]] + [es[2]] == [es[1], es[2]] && [es[2]] + [] == [es[2]];
  }

  /** The bits fail on page 0: do_fault_ret_handler takes address zero for a fault that is none
      of its business, so a write fault there leaves an executing page writable. */
  lemma BitsFailAtAddressZero(v2: bool)
    ensures Runs(LD, START, ZeroRun(v2)) && 0 in Final(LD, START, ZeroRun(v2)).pages
    ensures var pg := Final(LD, START, ZeroRun(v2)).pages[0]; pg.write && !pg.exeDeny && pg.checkDeny
  {
    LdDecodes();
    ZeroRunBreaks(LD, v2);
  }
}
