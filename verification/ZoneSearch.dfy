/**
 Where a zone ends: the searches of sig_handler and invalid_op_handler over at
 most two pages, and the stitching of the two pages across their boundary.

 All offsets are relative to the first page.  The searches stop at the first
 branch, which is the default number of contiguous blocks.
 */
module ZoneSearch {
  import opened Ld
  import opened Decoder
  import opened Scanner

  const PAGE: nat := 4096
  const MAX_PAGES: nat := 2
  const MAX_INSTRUCTION: nat := 15

  predicate IsPage(s: seq<byte>) { |s| == PAGE }

  function AlignUp(a: nat): (r: nat)
    ensures a <= r < a + PAGE && r % PAGE == 0
  {
    (a + PAGE - 1) / PAGE * PAGE
  }

  // No instruction of w is longer than fifteen bytes, and only the last fourteen
  // bytes of w can be the beginning of one that does not fit.
  ghost predicate ShortInstructions(t: Tables, w: seq<byte>) {
    forall p {:trigger w[p..]} | 0 <= p <= |w| ::
      match DecodeOne(t, w[p..])
      case Complete(n, _) => n <= MAX_INSTRUCTION
      case Incomplete => |w| - p < MAX_INSTRUCTION
      case Invalid => true
  }

  // ---------------------------------------------------------------- first fetch

  // What is known of the page after the first one: a page that can be searched, or none.
  datatype Next = NoNext | Next(bytes: seq<byte>)

  // Which of the two searched pages was found to end inside an instruction.
  datatype Crossing = Crossing(first: bool, second: bool)

  lemma AlignedInPage(a: nat)
    requires a <= PAGE
    ensures a <= AlignUp(a) <= PAGE
  {
  }

  predicate Unaligned(a: nat) { a % PAGE != 0 }

  datatype Extent = Undecodable(crossing: Crossing)
                  | Extent(pages: nat, end: nat, crossing: Crossing, stats: Stats)

  // The second page is entered at the byte where the first one stopped.
  function FetchExtent(t: Tables, page: seq<byte>, next: Next, off: nat): (z: Extent)
    requires IsPage(page) && (next.Next? ==> IsPage(next.bytes)) && off < PAGE
    ensures z.Extent? ==> 1 <= z.pages <= MAX_PAGES && off <= z.end <= z.pages * PAGE
    ensures z.Extent? && z.pages == 2 ==> next.Next?
  {
    match Scan(t, page[off..])
    case Failed(_) => Undecodable(Crossing(false, false))
    case Found(e, _, s) => Extent(1, off + e, Crossing(false, false), s)
    case Continue(e, s) =>
      var first := Unaligned(off + e);
      AlignedInPage(off + e);
      if next.NoNext? then Extent(1, off + e, Crossing(first, false), s)
      else
        match Scan(t, (page + next.bytes)[off + e..AlignUp(off + e) + PAGE])
        case Failed(_) => Undecodable(Crossing(first, false))
        case Found(e', _, s') => Extent(2, off + e + e', Crossing(first, false), Add(s, s'))
        case Continue(e', s') => Extent(2, off + e + e', Crossing(first, Unaligned(off + e + e')), Add(s, s'))
  }

  // The first page stops at its own first byte, so the search goes on with the same page.
  predicate Restarts(t: Tables, page: seq<byte>, off: nat)
    requires IsPage(page) && off < PAGE
  {
    var r := Scan(t, page[off..]);
    r.Continue? && off + r.end == 0
  }

  /** Resuming in the second page loses nothing: the search is one scan of the two
      pages joined, except when nothing fits in the first page from its first byte on.
      Then that page is searched twice, and the search ends at byte 0 of two pages. */
  lemma FetchIsOneScan(t: Tables, page: seq<byte>, next: seq<byte>, off: nat)
    requires IsPage(page) && IsPage(next) && off < PAGE
    ensures var z := FetchExtent(t, page, Next(next), off);
      var r := Scan(t, (page + next)[off..]);
      if Restarts(t, page, off) then z.Extent? && z.pages == 2 && z.end == 0 && z.stats == ZERO
      else
        && (z.Undecodable? <==> r.Failed?)
        && (z.Extent? ==> z.end == off + r.end && z.stats == r.stats)
        && (z.Extent? ==> (z.pages == 1 <==> Scan(t, page[off..]).Found?))
  {
    hide DecodeOne, Add, Scan;
    var w, w' := page[off..], (page + next)[off..];
    assert w <= w';
    WindowExtension(t, w, w');
    var r := Scan(t, w);
    if Restarts(t, page, off) {
      assert (page + next)[0..PAGE] == w;
      StoppedAtOnce(t, w);
    } else if r.Continue? {
      assert AlignUp(off + r.end) == PAGE;
      assert (page + next)[off + r.end..2 * PAGE] == w'[r.end..];
    }
  }

  /** The first page is flagged to end inside an instruction exactly if the search stops
      inside it, and the second one exactly if the whole search stops anywhere but at the end
      of a page. */
  lemma CrossingsExactly(t: Tables, page: seq<byte>, next: seq<byte>, off: nat)
    requires IsPage(page) && IsPage(next) && off < PAGE && !Restarts(t, page, off)
    ensures var z, r, r' := FetchExtent(t, page, Next(next), off), Scan(t, page[off..]), Scan(t, (page + next)[off..]);
      && (z.crossing.first <==> r.Continue? && off + r.end < PAGE)
      && (z.crossing.second <==> r'.Continue? && off + r'.end < 2 * PAGE && off + r'.end != PAGE)
  {
    hide DecodeOne, Add, Scan, AlignUp;
    var w, w', r := page[off..], (page + next)[off..], Scan(t, page[off..]);
    assert w <= w';
    WindowExtension(t, w, w');
    if r.Continue? {
      NextBoundary(off + r.end);
      assert (page + next)[off + r.end..2 * PAGE] == w'[r.end..];
    }
  }

  lemma NextBoundary(e: nat)
    requires 0 < e <= PAGE
    ensures AlignUp(e) == PAGE
  {
  }

  /** Without a second page the search is one scan of the rest of the first. */
  lemma FetchInOnePage(t: Tables, page: seq<byte>, off: nat)
    requires IsPage(page) && off < PAGE
    ensures var z, r := FetchExtent(t, page, NoNext, off), Scan(t, page[off..]);
      && (z.Undecodable? <==> r.Failed?)
      && (z.Extent? ==> z.pages == 1 && z.end == off + r.end && z.stats == r.stats)
      && (z.crossing.first <==> r.Continue? && 0 < off + r.end < PAGE) && !z.crossing.second
  {
    hide Scan;
  }

  lemma StoppedAtOnce(t: Tables, w: seq<byte>)
    requires Scan(t, w).Continue? && Scan(t, w).end == 0
    ensures Scan(t, w).stats == ZERO && Add(ZERO, ZERO) == ZERO
  {
    hide DecodeOne, Add;
    AddUnit(ZERO);
  }

  // The end of the zone after the fix-up of an empty one.
  function FixedEnd(off: nat, end: nat): nat { if end == off then AlignUp(end) else end }

  lemma ContinueIsIncomplete(t: Tables, w: seq<byte>)
    requires Scan(t, w).Continue?
    ensures DecodeOne(t, w[Scan(t, w).end..]).Incomplete?
    decreases |w|
  {
    hide DecodeOne, Add, One;
    assert w[0..] == w;
    var d := DecodeOne(t, w);
    if d.Complete? {
      ContinueIsIncomplete(t, w[d.len..]);
      assert w[d.len..][Scan(t, w[d.len..]).end..] == w[Scan(t, w).end..];
    }
  }

  // A scan that finds a branch has decoded an instruction at its first byte.
  lemma FoundStartsComplete(t: Tables, w: seq<byte>)
    requires !Scan(t, w).Failed? && Scan(t, w).end > 0
    ensures DecodeOne(t, w).Complete? && DecodeOne(t, w).len <= Scan(t, w).end
  {
    hide DecodeOne, Add, One;
  }

  // The first instruction that does not fit in the page reaches into the next one.
  lemma CrossingInstruction(t: Tables, page: seq<byte>, next: seq<byte>, e: nat)
    requires TablesOk(t) && e <= |page| && DecodeOne(t, page[e..]).Incomplete?
    ensures DecodeOne(t, (page + next)[e..]).Complete? ==>
      e + DecodeOne(t, (page + next)[e..]).len > |page|
  {
    hide DecodeOne;
    var w, w' := page[e..], (page + next)[e..];
    var d := DecodeOne(t, w');
    if d.Complete? && d.len <= |w| {
      assert w <= w';
      DecodeOfShorter(t, w, w');
    }
  }

  lemma DecodeOfShorter(t: Tables, w: seq<byte>, w': seq<byte>)
    requires TablesOk(t) && w <= w' && DecodeOne(t, w').Complete? && DecodeOne(t, w').len <= |w|
    ensures DecodeOne(t, w) == DecodeOne(t, w')
  {
    hide DecodeOne, WellFormed, Encode, KindOf;
    var x := DecodeThenEncode(t, w');
    assert Encode(x) <= w;
    EncodeThenDecode(t, x, w);
    EncodeThenDecode(t, x, w');
  }

  /** Where a searched zone ends: in its last page, and past that page's first byte. */
  lemma ZoneExtent(t: Tables, page: seq<byte>, next: Next, off: nat)
    requires TablesOk(t) && IsPage(page) && (next.Next? ==> IsPage(next.bytes)) && off < PAGE
    requires ShortInstructions(t, page)
    requires next.Next? ==> ShortInstructions(t, page + next.bytes)
    ensures var z := FetchExtent(t, page, next, off);
      z.Extent? ==> z.pages <= MAX_PAGES && (z.pages - 1) * PAGE < FixedEnd(off, z.end) <= z.pages * PAGE
  {
    hide DecodeOne, Add, Scan;
    var r := Scan(t, page[off..]);
    if r.Continue? {
      var e := off + r.end;
      ContinueIsIncomplete(t, page[off..]);
      assert page[off..][r.end..] == page[e..];
      assert DecodeOne(t, page[e..]).Incomplete?;
      if next.Next? {
        var w := page + next.bytes;
        var r' := Scan(t, w[e..2 * PAGE]);
        assert w[e..2 * PAGE] == w[e..];
        if r'.Continue? {
          ContinueIsIncomplete(t, w[e..]);
          assert w[e..][r'.end..] == w[e + r'.end..];
          assert DecodeOne(t, w[e + r'.end..]).Incomplete?;
        } else if r'.Found? {
          FoundStartsComplete(t, w[e..]);
          CrossingInstruction(t, page, next.bytes, e);
        }
      }
    }
  }

  // ---------------------------------------------------------------- crossing a page boundary

  // The fifteen bytes handle_cross_page decodes: the tail of one page and the head of the next.
  function CrossBuffer(prev: seq<byte>, next: seq<byte>, e: nat): (b: seq<byte>)
    requires IsPage(prev) && IsPage(next) && e <= PAGE && PAGE - e <= MAX_INSTRUCTION
    ensures |b| == MAX_INSTRUCTION
  {
    prev[e..] + next[..MAX_INSTRUCTION - (PAGE - e)]
  }

  datatype Cross = NoCross(stats: Stats) | Cross(offset: nat, stats: Stats)

  // The offset in the next page at which decoding goes on.  CrossingPositive shows
  // that the end of the decoded run is never inside the previous page.
  function CrossOffset(t: Tables, prev: seq<byte>, next: seq<byte>, e: nat): (c: Cross)
    requires IsPage(prev) && IsPage(next) && e <= PAGE && PAGE - e <= MAX_INSTRUCTION
    ensures c.Cross? ==> c.offset <= MAX_INSTRUCTION
  {
    var r := Scan(t, CrossBuffer(prev, next, e));
    if r.Failed? || r.end == 0 || r.end < PAGE - e then NoCross(r.stats)
    else Cross(r.end - (PAGE - e), r.stats)
  }

  // The run of instructions a scan stepped over, branch included.
  lemma ScannedRun(t: Tables, w: seq<byte>) returns (xs: seq<Instr>)
    requires TablesOk(t) && !Scan(t, w).Failed?
    ensures AllWellFormed(t, xs) && Flatten(xs) == w[..Scan(t, w).end]
  {
    hide DecodeOne, WellFormed, Encode, KindOf, Scan, Add, One;
    var r := Scan(t, w);
    xs := ScanIsExplained(t, w);
    var ys := xs;
    if r.Found? {
      var rest := w[|Flatten(ys)|..];
      var x :| WellFormed(t, x) && KindOf(t, x) == r.kind && r.kind.IsBranch() && Encode(x) <= rest
        && r.end == |Flatten(ys)| + |Encode(x)| && r.stats == Add(Tally(t, ys), One(r.kind));
      xs := ys + [x];
      FlattenSnoc(ys, x);
      assert w == w[..|Flatten(ys)|] + rest;
    }
  }

  lemma {:induction false} FlattenSnoc(xs: seq<Instr>, x: Instr)
    ensures Flatten(xs + [x]) == Flatten(xs) + Encode(x)
  {
    hide Encode;
    if xs == [] {
      assert [x][1..] == [];
    } else {
      assert (xs + [x])[1..] == xs[1..] + [x];
      FlattenSnoc(xs[1..], x);
    }
  }

  /** Stitching is sound: when decoding of a page stopped at e, a successful
      crossing lands strictly inside the next page, on an instruction boundary of
      the two pages joined. */
  lemma CrossingIsABoundary(t: Tables, prev: seq<byte>, next: seq<byte>, e: nat) returns (xs: seq<Instr>)
    requires TablesOk(t) && IsPage(prev) && IsPage(next) && e <= PAGE && PAGE - e <= MAX_INSTRUCTION
    requires DecodeOne(t, prev[e..]).Incomplete?
    requires CrossOffset(t, prev, next, e).Cross?
    ensures var o := CrossOffset(t, prev, next, e).offset;
      && 0 < o <= MAX_INSTRUCTION - (PAGE - e)
      && AllWellFormed(t, xs) && Flatten(xs) == (prev + next)[e..PAGE + o]
  {
    hide DecodeOne, WellFormed, Encode, Scan, Add;
    var b := CrossBuffer(prev, next, e);
    var o := CrossOffset(t, prev, next, e).offset;
    xs := ScannedRun(t, b);
    CrossingPositive(t, prev, next, e);
    CrossSlice(prev, next, e, PAGE - e + o);
  }

  lemma CrossSlice(prev: seq<byte>, next: seq<byte>, e: nat, k: nat)
    requires IsPage(prev) && IsPage(next) && e <= PAGE && PAGE - e <= MAX_INSTRUCTION && k <= MAX_INSTRUCTION
    ensures CrossBuffer(prev, next, e)[..k] == (prev + next)[e..e + k]
  {
    assert forall i | 0 <= i < k :: CrossBuffer(prev, next, e)[i] == (prev + next)[e + i];
  }

  /** When a crossing succeeds: let the fifteen bytes from e on split into the plain
      instructions xs and what r says comes after them.  If a branch comes, or there is a
      plain instruction and then one that does not fit, decoding goes on behind them;
      otherwise, when the first one is invalid or does not fit, or an invalid one follows,
      there is no crossing. */
  lemma CrossingExactly(t: Tables, prev: seq<byte>, next: seq<byte>, e: nat, xs: seq<Instr>, r: Result)
    requires TablesOk(t) && IsPage(prev) && IsPage(next) && e <= PAGE && PAGE - e <= MAX_INSTRUCTION
    requires DecodeOne(t, prev[e..]).Incomplete? && Explains(t, (prev + next)[e..e + 15], xs, r)
    ensures var c := CrossOffset(t, prev, next, e);
      && c.stats == r.stats
      && (c.Cross? <==> r.Found? || (r.Continue? && xs != []))
      && (c.Cross? && r.Continue? ==> c.offset == |Flatten(xs)| - (PAGE - e))
      && (c.Cross? && r.Found? ==>
            exists x :: WellFormed(t, x) && KindOf(t, x).IsBranch() && c.offset == |Flatten(xs + [x])| - (PAGE - e))
  {
    hide DecodeOne, Scan, WellFormed, KindOf, Encode;
    var b := CrossBuffer(prev, next, e);
    CrossSlice(prev, next, e, 15);
    assert b[..15] == b;
    ExplanationDecides(t, b, xs, r);
    CrossingPositive(t, prev, next, e);
    if r.Found? {
      var x :| WellFormed(t, x) && KindOf(t, x) == r.kind && r.kind.IsBranch() && r.end == |Flatten(xs)| + |Encode(x)|;
      FlattenSnoc(xs, x);
    } else if r.Continue? && xs != [] {
      FlattenIsLonger(xs);
    }
  }

  lemma FlattenIsLonger(xs: seq<Instr>)
    requires xs != []
    ensures |Flatten(xs)| > 0
  {
  }

  // Whatever completes an instruction that did not fit ends past the boundary, so
  // the subtraction in handle_cross_page never goes below zero.
  lemma CrossingPositive(t: Tables, prev: seq<byte>, next: seq<byte>, e: nat)
    requires TablesOk(t) && IsPage(prev) && IsPage(next) && e <= PAGE && PAGE - e <= MAX_INSTRUCTION
    requires DecodeOne(t, prev[e..]).Incomplete?
    ensures var r := Scan(t, CrossBuffer(prev, next, e));
      !r.Failed? && r.end > 0 ==> r.end > PAGE - e
  {
    hide DecodeOne, Scan;
    var b := CrossBuffer(prev, next, e);
    var head := next[..MAX_INSTRUCTION - (PAGE - e)];
    var r := Scan(t, b);
    if !r.Failed? && r.end > 0 {
      FoundStartsComplete(t, b);
      assert prev[e..][0..] == prev[e..] && (prev[e..] + head)[0..] == b;
      CrossingInstruction(t, prev[e..], head, 0);
    }
  }

  // ---------------------------------------------------------------- invalid-opcode trap

  // find_first_invalid_opcode_byte: how far the masked bytes from `from` reach,
  // when they are followed by an open byte of the page.
  datatype Gap = PageEnd | UpTo(offset: nat)

  function GapFrom(vis: seq<byte>, from: nat, i: nat): (g: Gap)
    requires IsPage(vis) && from <= i <= PAGE && from < PAGE
    requires forall j | from <= j < i :: vis[j] == INVALID_OPCODE
    ensures g.UpTo? ==> from < g.offset < PAGE && vis[g.offset] != INVALID_OPCODE
    ensures g.UpTo? ==> forall j | from <= j < g.offset :: vis[j] == INVALID_OPCODE
    ensures g.PageEnd? ==>
      vis[from] != INVALID_OPCODE || forall j | from <= j < PAGE :: vis[j] == INVALID_OPCODE
    decreases PAGE - i
  {
    if i == PAGE then PageEnd
    else if vis[i] != INVALID_OPCODE then (if i == from then PageEnd else UpTo(i))
    else GapFrom(vis, from, i + 1)
  }

  function Limit(g: Gap): nat { if g.UpTo? then g.offset else PAGE }

  /** The page after the trapping one, as the handler meets it. */
  datatype After = Unmapped | Unusable | Usable(master: seq<byte>, visible: seq<byte>)

  // The result of the search: give up, restore the whole first page (`at` is where the
  // search was last started, in the page it failed in), or open [off, end) of `pages` pages.
  datatype TrapExtent = GiveUp(crossing: Crossing)
                      | WholePage(pages: nat, crossing: Crossing, at: nat)
                      | Zone(pages: nat, end: nat, crossing: Crossing, stats: Stats)

  // When the search goes on in the page after, at most fifteen bytes are left over to stitch.
  predicate Stitchable(t: Tables, master: seq<byte>, visible: seq<byte>, off: nat, after: After)
    requires IsPage(master) && IsPage(visible) && off < PAGE
  {
    var g := GapFrom(visible, off, off);
    var r := Scan(t, master[off..Limit(g)]);
    r.Continue? && g.PageEnd? && after.Usable? ==> PAGE - (off + r.end) <= MAX_INSTRUCTION
  }

  function TrapSearch(t: Tables, master: seq<byte>, visible: seq<byte>, off: nat, after: After): (z: TrapExtent)
    requires IsPage(master) && IsPage(visible) && off < PAGE
    requires after.Usable? ==> IsPage(after.master) && IsPage(after.visible)
    requires Stitchable(t, master, visible, off, after)
    ensures z.Zone? ==> 1 <= z.pages <= MAX_PAGES && off <= z.end <= z.pages * PAGE
    ensures z.Zone? && z.pages == 2 ==> after.Usable? && z.end >= PAGE
    ensures z.WholePage? ==> 1 <= z.pages <= MAX_PAGES && z.at < PAGE && (z.pages == 2 ==> after.Usable?)
  {
    var g := GapFrom(visible, off, off);
    match Scan(t, master[off..Limit(g)])
    case Failed(_) => WholePage(1, Crossing(false, false), off)
    case Found(e, _, s) => Zone(1, off + e, Crossing(false, false), s)
    case Continue(e, s) =>
      if g.UpTo? then Zone(1, g.offset, Crossing(false, false), s)
      else SecondPage(t, master, off, off + e, after, s)
  }

  function SecondPage(t: Tables, master: seq<byte>, off: nat, e: nat, after: After, s: Stats): (z: TrapExtent)
    requires IsPage(master) && off <= e <= PAGE
    requires after.Usable? ==> IsPage(after.master) && IsPage(after.visible) && PAGE - e <= MAX_INSTRUCTION
    ensures z.Zone? ==> 1 <= z.pages <= MAX_PAGES && e <= z.end <= z.pages * PAGE
    ensures z.Zone? && z.pages == 2 ==> after.Usable? && z.end >= PAGE
    ensures z.WholePage? ==> 1 <= z.pages <= MAX_PAGES && z.at < PAGE && (z.pages == 2 ==> after.Usable?)
  {
    var c := Crossing(Unaligned(e), false);
    match after
    case Unmapped => GiveUp(c)
    case Unusable => Zone(1, e, c, s)
    case Usable(m', v') =>
      match CrossOffset(t, master, m', e)
      case NoCross(s') => Zone(1, e, c, Add(s, s'))
      case Cross(o, s') => SecondTurn(t, m', v', o, c, Add(s, s'))
  }

  // The search in the second page, from the crossing on; s counts what came before.
  function SecondTurn(t: Tables, m': seq<byte>, v': seq<byte>, o: nat, c: Crossing, s: Stats): (z: TrapExtent)
    requires IsPage(m') && IsPage(v') && o <= MAX_INSTRUCTION
    ensures z.Zone? ==> z.pages == 2 && PAGE + o <= z.end <= 2 * PAGE
    ensures z.WholePage? ==> z.pages == 2 && z.at < PAGE
    ensures !z.GiveUp?
  {
    var g := GapFrom(v', o, o);
    match Scan(t, m'[o..Limit(g)])
    case Failed(_) => WholePage(2, c, o)
    case Found(n, _, s') => Zone(2, PAGE + o + n, c, Add(s, s'))
    case Continue(n, s') =>
      if g.UpTo? then Zone(2, PAGE + g.offset, c, Add(s, s'))
      else Zone(2, PAGE + o + n, c.(second := Unaligned(o + n)), Add(s, s'))
  }

  /** A zone of two pages ends past the first byte of its second page, so the copy
      of its last page is never empty. */
  lemma TrapZoneEndsInLastPage(t: Tables, master: seq<byte>, visible: seq<byte>, off: nat, after: After)
    requires TablesOk(t) && IsPage(master) && IsPage(visible) && off < PAGE
    requires after.Usable? ==> IsPage(after.master) && IsPage(after.visible)
    requires Stitchable(t, master, visible, off, after)
    ensures var z := TrapSearch(t, master, visible, off, after);
      z.Zone? && z.pages == 2 ==> PAGE < z.end <= 2 * PAGE
  {
    hide DecodeOne, Scan, Add;
    var g := GapFrom(visible, off, off);
    var r := Scan(t, master[off..Limit(g)]);
    if r.Continue? && g.PageEnd? && after.Usable? {
      assert master[off..Limit(g)] == master[off..];
      StoppedAt(t, master, off);
      CrossingPositive(t, master, after.master, off + r.end);
    }
  }

  // Where a scan of the rest of a page stops, the page does not hold the whole instruction.
  lemma StoppedAt(t: Tables, page: seq<byte>, off: nat)
    requires IsPage(page) && off < PAGE && Scan(t, page[off..]).Continue?
    ensures DecodeOne(t, page[off + Scan(t, page[off..]).end..]).Incomplete?
  {
    hide DecodeOne, Scan;
    ContinueIsIncomplete(t, page[off..]);
    assert page[off..][Scan(t, page[off..]).end..] == page[off + Scan(t, page[off..]).end..];
  }

  // With no instruction longer than fifteen bytes every trap can be stitched.
  lemma ShortInstructionsStitch(t: Tables, master: seq<byte>, visible: seq<byte>, off: nat, after: After)
    requires IsPage(master) && IsPage(visible) && off < PAGE && ShortInstructions(t, master)
    ensures Stitchable(t, master, visible, off, after)
  {
    hide DecodeOne, Scan;
    var g := GapFrom(visible, off, off);
    var r := Scan(t, master[off..Limit(g)]);
    if r.Continue? && g.PageEnd? {
      assert master[off..Limit(g)] == master[off..];
      StoppedAt(t, master, off);
      assert DecodeOne(t, master[off + r.end..]).Incomplete?;
    }
  }

  // ---------------------------------------------------------------- what the trap search finds

  // The masked bytes from off on end before byte `limit`, which is open, or are not followed
  // by an open one; a byte that is open itself has no gap.
  predicate GapEnds(vis: seq<byte>, off: nat, limit: nat)
    requires IsPage(vis)
  {
    && off < limit <= PAGE
    && (limit < PAGE ==> vis[limit] != INVALID_OPCODE && forall j | off <= j < limit :: vis[j] == INVALID_OPCODE)
    && (limit == PAGE ==> vis[off] != INVALID_OPCODE || forall j | off <= j < PAGE :: vis[j] == INVALID_OPCODE)
  }

  /** The gap is found exactly. */
  lemma GapExactly(vis: seq<byte>, off: nat, limit: nat)
    requires IsPage(vis) && off < PAGE && GapEnds(vis, off, limit)
    ensures GapFrom(vis, off, off) == if limit < PAGE then UpTo(limit) else PageEnd
  {
    GapFromAt(vis, off, off, limit);
  }

  lemma {:induction false} GapFromAt(vis: seq<byte>, off: nat, i: nat, limit: nat)
    requires IsPage(vis) && off < PAGE && GapEnds(vis, off, limit) && off <= i <= limit
    requires forall j | off <= j < i :: vis[j] == INVALID_OPCODE
    ensures GapFrom(vis, off, i) == if limit < PAGE then UpTo(limit) else PageEnd
    decreases limit - i
  {
    if i < limit && vis[i] == INVALID_OPCODE {
      GapFromAt(vis, off, i + 1, limit);
    }
  }

  // The crossing from byte e of m, where there is one.
  function CrossAt(t: Tables, m: seq<byte>, m': seq<byte>, e: nat): Cross
    requires IsPage(m) && IsPage(m')
  {
    if e <= PAGE && PAGE - e <= MAX_INSTRUCTION then CrossOffset(t, m, m', e) else NoCross(ZERO)
  }

  /** The trap search in the first page, from its master copy up to the end of the gap: a
      branch ends the zone, and so does the open byte after the gap; bytes that do not decode
      give the page up; and what runs into the end of the page goes on in the next one, ends
      before it, or is given up, as that page is usable, unusable or not mapped. */
  lemma FirstPageExactly(t: Tables, m: seq<byte>, vis: seq<byte>, off: nat, after: After, limit: nat)
    requires IsPage(m) && IsPage(vis) && off < PAGE && GapEnds(vis, off, limit)
    requires after.Usable? ==> IsPage(after.master) && IsPage(after.visible)
    requires Stitchable(t, m, vis, off, after)
    ensures var z, r := TrapSearch(t, m, vis, off, after), Scan(t, m[off..limit]);
      var none, c := Crossing(false, false), Crossing(r.Continue? && 0 < off + r.end < PAGE, false);
      if r.Failed? then z == WholePage(1, none, off)
      else if r.Found? then z == Zone(1, off + r.end, none, r.stats)
      else if limit < PAGE then z == Zone(1, limit, none, r.stats)
      else if after.Unmapped? then z == GiveUp(c)
      else if after.Unusable? then z == Zone(1, off + r.end, c, r.stats)
      else
        match CrossAt(t, m, after.master, off + r.end)
        case NoCross(s) => z == Zone(1, off + r.end, c, Add(r.stats, s))
        case Cross(o, s) => z == SecondTurn(t, after.master, after.visible, o, c, Add(r.stats, s))
  {
    hide Scan, CrossOffset, Add, SecondTurn;
    GapExactly(vis, off, limit);
  }

  /** The same in the second page, from the crossing o on.  What runs into the end of that page
      ends the zone there. */
  lemma SecondPageExactly(t: Tables, m': seq<byte>, vis': seq<byte>, o: nat, first: bool, s0: Stats, limit: nat)
    requires IsPage(m') && IsPage(vis') && o <= 15 && GapEnds(vis', o, limit)
    ensures var c, r := Crossing(first, false), Scan(t, m'[o..limit]);
      var z := SecondTurn(t, m', vis', o, c, s0);
      if r.Failed? then z == WholePage(2, c, o)
      else if r.Found? then z == Zone(2, 4096 + o + r.end, c, Add(s0, r.stats))
      else if limit < PAGE then z == Zone(2, 4096 + limit, c, Add(s0, r.stats))
      else z == Zone(2, 4096 + o + r.end, Crossing(first, 0 < o + r.end < PAGE), Add(s0, r.stats))
  {
    hide Scan, Add;
    GapExactly(vis', o, limit);
  }
}
