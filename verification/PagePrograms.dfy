/**
 Complete mediation of programs: a condition on the bytes that are mapped and written, under
 which no zone ends early and every run is mediated.
 */
module PagePrograms {
  import opened Ld
  import opened LdTables
  import opened LdTablesFacts
  import opened Decoder
  import opened Scanner
  import opened ZoneSearch
  import opened PageMachine
  import opened PageEffects
  import opened PageBits
  import opened PageMasking
  import opened PageLocking
  import opened PageSafety

  // ---------------------------------------------------------------- instructions without end

  // Behind its prefixes an instruction is decided within thirty-two bytes.
  lemma DecidedSoon(t: Tables, w: seq<byte>)
    requires DecodeOne(t, w).Incomplete?
    ensures Lead(t, w, 0) + 32 > |w|
  {
    hide AfterOpcode, AfterOneByte, TwoByteShape, Map38Shape, Map3AShape, Vex0FShape, Vex3Shape, EvexShape, Small;
    var k := Lead(t, w, 0);
    if k + 32 <= |w| {
      var mods := ModsOf(w[..k]);
      SmallShapes(t, w[k + 1], w[k + 2], w[k + 3], w[k + 4], mods);
      DecidedOneByte(t, w, k, mods);
      DecidedOpcode(t, w, k, 2, mods, Vex0FShape(w[k + 2]));
      DecidedOpcode(t, w, k, 3, mods, Vex3Shape(t, w[k + 1], w[k + 3]));
      DecidedOpcode(t, w, k, 4, mods, EvexShape(t, w[k + 1], w[k + 4]));
      DecidedOpcode(t, w, k, 1, mods, TwoByteShape(t, w[k + 1], mods));
      DecidedOpcode(t, w, k, 2, mods, Map38Shape(t, w[k + 2]));
      DecidedOpcode(t, w, k, 2, mods, Map3AShape(t, w[k + 2]));
    }
  }

  lemma SmallShapes(t: Tables, b1: byte, b2: byte, b3: byte, b4: byte, mods: Mods)
    requires mods.ddef <= 4 && mods.mdef <= 4
    ensures Small(TwoByteShape(t, b1, mods)) && Small(Map38Shape(t, b2)) && Small(Map3AShape(t, b2))
    ensures Small(Vex0FShape(b2)) && Small(Vex3Shape(t, b1, b3)) && Small(EvexShape(t, b1, b4))
  {
    hide TwoByteKind;
  }

  predicate Small(s: Shape) { s.Shape? ==> s.imm <= 11 && s.moffs <= 4 }

  lemma DecidedOpcode(t: Tables, w: seq<byte>, k: nat, at: nat, mods: Mods, s: Shape)
    requires k + 32 <= |w| && at <= 4 && mods.ddef <= 4 && mods.mdef <= 4 && Small(s)
    ensures !AfterOpcode(t, w, k + at, mods, s).Incomplete?
  {
  }

  lemma DecidedOneByte(t: Tables, w: seq<byte>, k: nat, mods: Mods)
    requires k + 32 <= |w| && mods.ddef <= 4 && mods.mdef <= 4
    ensures !AfterOneByte(t, w, k, mods, OneByteShape(t, w[k], mods)).Incomplete?
  {
    hide AfterOpcode, OneByteKind;
    var s := OneByteShape(t, w[k], mods);
    var s' := if s.Shape? && IsTest(s.op) then s.(imm := s.imm + TestImm(s.op, w[k + 1], mods)) else s;
    DecidedOpcode(t, w, k, 0, mods, s');
  }

  // The two scans of a two-page search.
  lemma TwoScans(t: Tables, page: seq<byte>, next: seq<byte>, off: nat) returns (e: nat)
    requires IsPage(page) && IsPage(next) && off < PAGE
    requires var z := FetchExtent(t, page, Next(next), off);
      z.Extent? && z.pages == 2 && off < z.end
    ensures Scan(t, page[off..]).Continue? && e == off + Scan(t, page[off..]).end <= PAGE
    ensures e > 0 ==>
      var r := Scan(t, (page + next)[e..]);
      !r.Failed? && FetchExtent(t, page, Next(next), off).end == e + r.end
  {
    hide DecodeOne, Add, Scan, AlignUp, Unaligned;
    e := off + Scan(t, page[off..]).end;
    if e > 0 {
      NextBoundary(e);
      assert (page + next)[e..] == (page + next)[e..PAGE + PAGE];
    }
  }

  // A two-page search that ends early has stopped where it left the first page.
  lemma EarlyEndStops(t: Tables, page: seq<byte>, next: seq<byte>, off: nat)
    requires TablesOk(t) && IsPage(page) && IsPage(next) && off < PAGE
    requires var z := FetchExtent(t, page, Next(next), off);
      z.Extent? && z.pages == 2 && off < z.end < PAGE
    ensures DecodeOne(t, (page + next)[FetchExtent(t, page, Next(next), off).end..]).Incomplete?
  {
    hide DecodeOne, Add, Scan, TablesOk, FetchExtent;
    if Restarts(t, page, off) {
      FetchIsOneScan(t, page, next, off);
    }
    var e := TwoScans(t, page, next, off);
    StoppedAt(t, page, off);
    var w := (page + next)[e..];
    if Scan(t, w).end > 0 {
      FoundStartsComplete(t, w);
      CrossingInstruction(t, page, next, e);
    } else {
      ContinueIsIncomplete(t, w);
      assert w[0..] == w;
    }
  }

  /** A two-page search ends early only in front of prefixes that reach through the second
      page to its last thirty-two bytes. */
  lemma EarlyEndSkips(t: Tables, page: seq<byte>, next: seq<byte>, off: nat, i: nat)
    requires TablesOk(t) && IsPage(page) && IsPage(next) && off < PAGE && i < PAGE - 32
    requires var z := FetchExtent(t, page, Next(next), off);
      z.Extent? && z.pages == 2 && off < z.end < PAGE
    ensures Skippable(t, next[i])
  {
    hide DecodeOne, FetchExtent, Skippable, TablesOk;
    var e := FetchExtent(t, page, Next(next), off).end;
    var w := (page + next)[e..];
    EarlyEndStops(t, page, next, off);
    DecidedSoon(t, w);
    assert w[PAGE - e + i] == next[i];
  }

  // ---------------------------------------------------------------- anchored pages

  // The handlers' mask byte is not taken for a prefix.
  predicate MaskStops(t: Tables) { TablesOk(t) && INVALID_OPCODE !in t.prefix }

  lemma LdMaskStops()
    ensures MaskStops(LD)
  {
    LdTablesOk();
    assert !BitAt(PREFIX_T, 0x0E);
  }

  /** Whatever place a of the page can come to show is no prefix. */
  predicate Anchored(t: Tables, pg: Page, a: nat)
    requires PageShape(pg)
  {
    a < PAGE - 32 && forall b | b in Column(pg, a) :: !Skippable(t, b)
  }

  predicate HasAnchor(t: Tables, bytes: seq<byte>, a: nat) {
    a < PAGE - 32 && a < |bytes| && !Skippable(t, bytes[a])
  }

  lemma FreshAnchored(t: Tables, pg: Page, a: nat)
    requires MaskStops(t) && PageShape(pg) && pg.masters == [] && HasAnchor(t, pg.visible, a)
    ensures Anchored(t, pg, a)
  {
  }

  lemma DrawsAnchored(t: Tables, pg: Page, pg': Page, a: nat)
    requires Draws(pg, pg') && Anchored(t, pg, a)
    ensures Anchored(t, pg', a)
  {
    hide Skippable, Column;
  }

  lemma WrittenAnchored(t: Tables, pg: Page, bytes: seq<byte>, a: nat)
    requires PageShape(pg) && IsPage(bytes) && Anchored(t, pg, a) && HasAnchor(t, bytes, a) && MaskStops(t)
    ensures Anchored(t, pg.(visible := bytes), a)
  {
    forall b | b in Column(pg.(visible := bytes), a) ensures !Skippable(t, b) {
      if b != bytes[a] && b != INVALID_OPCODE {
        assert b in Column(pg, a);
      }
    }
  }

  // No zone that reaches into an anchored page ends early.
  lemma AnchoredEnds(t: Tables, s: State, p: nat, off: nat, a: nat)
    requires MaskStops(t) && StateShape(s) && p in s.pages && off < PAGE
    requires p + 1 in s.pages ==> Anchored(t, s.pages[p + 1], a)
    ensures FetchEndsInLastPage(t, s, p, off)
  {
    hide FetchExtent, Skippable;
    var z := FetchExtent(t, s.pages[p].visible, NextOf(s, p), off);
    if z.Extent? && z.pages == 2 && off < z.end < PAGE {
      assert s.pages[p + 1].visible[a] in Column(s.pages[p + 1], a);
      EarlyEndSkips(t, s.pages[p].visible, s.pages[p + 1].visible, off, a);
    }
  }

  // So a page is guarded when it and the page after are anchored.
  lemma AnchoredGuarded(t: Tables, s: State, e: Event, p: nat, a: nat, a': nat)
    requires MaskStops(t) && StateShape(s) && Enabled(t, s, e) && p in s.pages
    requires Anchored(t, s.pages[p], a) && (p + 1 in s.pages ==> Anchored(t, s.pages[p + 1], a'))
    ensures Guarded(t, s, e, p)
  {
    hide FetchEffect, FetchEndsInLastPage, Anchored, MaskStops, Harmless, TrapReady;
    if e.Fetch? && (e.p == p || e.p + 1 == p) {
      AnchoredEnds(t, s, e.p, e.off, if e.p == p then a' else a);
      LastPageHarmless(t, s, e.p, e.off, e.verdict, e.verdict2, p);
    } else {
      GuardedElsewhere(t, s, e, p);
    }
  }

  // One event keeps the anchor of a page it does not let the process overwrite there.
  lemma StepAnchored(t: Tables, s: State, e: Event, q: nat, a: nat)
    requires MaskStops(t) && StateShape(s) && Enabled(t, s, e) && q in s.pages && Anchored(t, s.pages[q], a)
    requires e.UserWrite? && e.p == q ==> HasAnchor(t, e.bytes, a)
    ensures q in Step(t, s, e).pages && Anchored(t, Step(t, s, e).pages[q], a)
  {
    hide FetchStep, TrapStep, TrapReady, Anchored, HasAnchor, Draws, Chained;
    StepChains(t, s, e, q);
    if e.UserWrite? && e.p == q {
      WrittenAnchored(t, s.pages[q], e.bytes, a);
    } else {
      DrawsAnchored(t, s.pages[q], Step(t, s, e).pages[q], a);
    }
  }

  // ---------------------------------------------------------------- runs

  // The event maps or writes page q.
  predicate Fills(e: Event, q: nat) { (e.Mmap? || e.UserWrite?) && e.p == q }

  // Whatever is mapped or written at page q holds a byte that is no prefix, before its last
  // thirty-two bytes.
  ghost predicate AllStop(t: Tables, es: seq<Event>, q: nat) {
    forall k | 0 <= k < |es| && Fills(es[k], q) :: exists a :: HasAnchor(t, es[k].bytes, a)
  }

  // Page q, if it is there, has an anchor and is locked.
  ghost predicate Stopped(t: Tables, s: State, q: nat)
    requires StateShape(s)
  {
    q in s.pages ==> BitsOk(s.pages[q]) && Locked(s.pages[q]) && exists a :: Anchored(t, s.pages[q], a)
  }

  lemma StepStops(t: Tables, s: State, e: Event, q: nat)
    requires MaskStops(t) && StateShape(s) && Enabled(t, s, e) && Stopped(t, s, q)
    requires q in s.pages ==> !Uncaught(s, e, q) && !LeavesOpen(t, s, e, q)
    requires Fills(e, q) ==> exists a :: HasAnchor(t, e.bytes, a)
    ensures Stopped(t, Step(t, s, e), q)
  {
    hide Step, Anchored, HasAnchor, MaskStops, TrapReady, EventPage, LeavesOpen;
    StepMakes(t, s, e, q);
    if q in Step(t, s, e).pages {
      NextBits(t, s, e, q);
      if q in s.pages {
        StepLocks(t, s, e, q);
      }
      if Fills(e, q) {
        var a :| HasAnchor(t, e.bytes, a);
        FilledAnchored(t, s, e, a);
      } else {
        var a :| Anchored(t, s.pages[q], a);
        StepAnchored(t, s, e, q, a);
      }
    }
  }

  // The bytes of a page without copies are those just mapped or written.
  lemma FilledAnchored(t: Tables, s: State, e: Event, a: nat)
    requires MaskStops(t) && StateShape(s) && Enabled(t, s, e) && Fills(e, e.p) && HasAnchor(t, e.bytes, a)
    requires e.UserWrite? ==> Locked(s.pages[e.p])
    ensures e.p in Step(t, s, e).pages && Anchored(t, Step(t, s, e).pages[e.p], a)
  {
    hide Anchored, HasAnchor, MaskStops;
    if e.UserWrite? {
      FreshAnchored(t, s.pages[e.p].(visible := e.bytes), a);
    } else {
      FreshAnchored(t, Mapped(e.bytes, e.vmWrite, e.kernelWrite), a);
    }
  }

  // No event leaves page q open, or makes it writable behind the handlers' back.
  predicate KeepsLocks(t: Tables, s: State, es: seq<Event>, q: nat)
    requires StateShape(s) && Runs(t, s, es)
  {
    NeverLeavesOpen(t, s, es, q) && NeverUncaught(t, s, es, q)
  }

  lemma {:induction false} StoppingRun(t: Tables, s: State, es: seq<Event>, p: nat)
    requires MaskStops(t) && StateShape(s) && Stopped(t, s, p) && Stopped(t, s, p + 1)
    requires Runs(t, s, es) && AllStop(t, es, p) && AllStop(t, es, p + 1)
    requires KeepsLocks(t, s, es, p) && KeepsLocks(t, s, es, p + 1)
    ensures AllGuarded(t, s, es, p)
    decreases |es|
  {
    hide Step, Enabled, Anchored, HasAnchor, BitsOk, LeavesOpen, Uncaught, Guarded, MaskStops;
    if es != [] {
      assert AllStop(t, es[1..], p) && AllStop(t, es[1..], p + 1);
      if p in s.pages {
        var a :| Anchored(t, s.pages[p], a);
        var a' :| p + 1 in s.pages ==> Anchored(t, s.pages[p + 1], a');
        AnchoredGuarded(t, s, es[0], p, a, a');
      }
      StepStops(t, s, es[0], p);
      StepStops(t, s, es[0], p + 1);
      StoppingRun(t, Step(t, s, es[0]), es[1..], p);
    }
  }

  /** Complete mediation of programs.  When neither page p nor the next one is left registered
      and writable, and all that is mapped or written there holds, before its last thirty-two
      bytes, one byte that is no prefix, then page p is mediated after the run. */
  lemma MediationOfPrograms(t: Tables, es: seq<Event>, p: nat)
    requires MaskStops(t) && Runs(t, START, es) && p in Final(t, START, es).pages
    requires AllStop(t, es, p) && NeverLeavesOpen(t, START, es, p)
    requires AllStop(t, es, p + 1) && NeverLeavesOpen(t, START, es, p + 1)
    requires p > 0 || NeverUncaught(t, START, es, p)
    ensures AllGuarded(t, START, es, p) && ExecutesChecked(Final(t, START, es).pages[p])
  {
    OnlyPageZero(t, START, es, p + 1);
    if p > 0 {
      OnlyPageZero(t, START, es, p);
    }
    StoppingRun(t, START, es, p);
    CompleteMediation(t, es, p);
  }

  // Whatever is mapped or written at page q holds a byte that is no prefix at place a.
  predicate AllStopAt(t: Tables, es: seq<Event>, q: nat, a: nat) {
    forall k | 0 <= k < |es| && Fills(es[k], q) :: HasAnchor(t, es[k].bytes, a)
  }

  predicate AnchoredAt(t: Tables, s: State, q: nat, a: nat)
    requires StateShape(s)
  {
    q in s.pages ==> Anchored(t, s.pages[q], a)
  }

  lemma StepStopsAt(t: Tables, s: State, e: Event, q: nat, a: nat)
    requires MaskStops(t) && StateShape(s) && Enabled(t, s, e) && AnchoredAt(t, s, q, a)
    requires Fills(e, q) ==> HasAnchor(t, e.bytes, a)
    ensures AnchoredAt(t, Step(t, s, e), q, a)
  {
    hide Step, Anchored, HasAnchor, MaskStops, TrapReady, EventPage;
    StepMakes(t, s, e, q);
    if q in s.pages {
      StepAnchored(t, s, e, q, a);
    } else if Fills(e, q) && e.Mmap? {
      FilledAnchored(t, s, e, a);
    }
  }

  lemma {:induction false} AnchoredRun(t: Tables, s: State, es: seq<Event>, p: nat, a: nat, a': nat)
    requires MaskStops(t) && StateShape(s) && AnchoredAt(t, s, p, a) && AnchoredAt(t, s, p + 1, a')
    requires Runs(t, s, es) && AllStopAt(t, es, p, a) && AllStopAt(t, es, p + 1, a')
    ensures AllGuarded(t, s, es, p)
    decreases |es|
  {
    hide Step, Enabled, Anchored, HasAnchor, Guarded, MaskStops;
    if es != [] {
      if p in s.pages {
        AnchoredGuarded(t, s, es[0], p, a, a');
      }
      StepStopsAt(t, s, es[0], p, a);
      StepStopsAt(t, s, es[0], p + 1, a');
      AnchoredRun(t, Step(t, s, es[0]), es[1..], p, a, a');
    }
  }

  /** The same without any condition on the locks, when that byte has one place in all the
      versions of page p, and one in those of the next. */
  lemma MediationOfAnchoredPrograms(t: Tables, es: seq<Event>, p: nat, a: nat, a': nat)
    requires MaskStops(t) && Runs(t, START, es) && p in Final(t, START, es).pages
    requires AllStopAt(t, es, p, a) && AllStopAt(t, es, p + 1, a') && (p > 0 || NeverUncaught(t, START, es, p))
    ensures AllGuarded(t, START, es, p) && ExecutesChecked(Final(t, START, es).pages[p])
  {
    AnchoredRun(t, START, es, p, a, a');
    CompleteMediation(t, es, p);
  }
}
