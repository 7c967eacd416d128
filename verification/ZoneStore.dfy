/**
 The zones kept for user space: create_zone and transfer_zone put them into a hash
 table of lists, the RD_VALUE and GET_CFG_BY_PID commands take them out, and two
 counters follow.
 */
module ZoneStore {
  import opened Ld
  import Scanner
  import ZoneSearch

  const PAGE: nat := ZoneSearch.PAGE
  const BUCKETS: nat := 65536

  datatype Zone = Zone(data: seq<byte>, start: nat, end: nat, stats: Scanner.Stats)

  datatype Node = Node(pid: int, zone: Zone)

  const ALL_ONES := Scanner.Stats(255, 255, 255, 255, 255, 255, 255)

  // What the caller knows of the instructions of the zone, if it disassembled it.
  datatype Known = Unknown | Known(stats: Scanner.Stats)

  function StatsOf(k: Known): Scanner.Stats { if k.Known? then k.stats else ALL_ONES }

  // ---------------------------------------------------------------- making a zone

  function EndOffset(end: nat, pages: nat): int {
    if end % PAGE == 0 then pages * PAGE else end % PAGE + (pages - 1) * PAGE
  }

  datatype Made = Refused | Made(zone: Zone)

  // create_zone: the end is computed anew from the number of pages.
  function CreatedZone(data: seq<byte>, start: nat, end: nat, pages: nat, isZone: bool, known: Known): Made
    requires pages >= 1
    requires start < end ==> end - start <= if isZone then |data| else |data| - start % PAGE
  {
    if end <= start then Refused
    else
      var from := if isZone then 0 else start % PAGE;
      Made(Zone(data[from..from + (end - start)], start, start - start % PAGE + EndOffset(end, pages), StatsOf(known)))
  }

  function TransferredZone(data: seq<byte>, start: nat, end: nat, known: Known): Made
    requires start <= end ==> end - start <= |data|
  {
    if start == 0 || end == 0 || end < start then Refused
    else Made(Zone(data[..end - start], start, end, StatsOf(known)))
  }

  function SizeOf(z: Zone): int { z.end - z.start }

  // The end lies in the last of the pages counted from the page of start.
  predicate EndsInLastPage(start: nat, end: nat, pages: nat) {
    var base := start - start % PAGE;
    base + (pages - 1) * PAGE < end <= base + pages * PAGE
  }

  /** create_zone stores exactly start..end if and only if the end lies in the last
      of the pages it is told. */
  lemma CreatedZoneIsExact(data: seq<byte>, start: nat, end: nat, pages: nat, isZone: bool, known: Known)
    requires pages >= 1 && start < end && end - start <= if isZone then |data| else |data| - start % PAGE
    ensures var z := CreatedZone(data, start, end, pages, isZone, known).zone;
      && z.start == start && |z.data| == end - start
      && (z.end == end <==> EndsInLastPage(start, end, pages))
      && (|z.data| == SizeOf(z) <==> EndsInLastPage(start, end, pages))
  {
    var base, q, r := start - start % PAGE, end / PAGE, end % PAGE;
    var b := start / PAGE;
    assert base == b * PAGE && end == q * PAGE + r;
    if r == 0 {
      assert EndsInLastPage(start, end, pages) <==> q == b + pages;
    } else {
      assert EndsInLastPage(start, end, pages) <==> q == b + pages - 1;
    }
  }

  // The statistics of a zone nothing is known of: every counter at its greatest.
  predicate StatisticsOf(z: Zone, known: Known) {
    match known
    case Known(s) => z.stats == s
    case Unknown =>
      && z.stats.control == 255 && z.stats.arithmetic == 255 && z.stats.logical == 255 && z.stats.memory == 255
      && z.stats.system == 255 && z.stats.misc == 255 && z.stats.vector == 255
  }

  /** What create_zone stores: the bytes of the zone, which stand at the front of what it is
      given or behind the first bytes of its page, and the caller's statistics.  It refuses an
      empty zone and nothing else. */
  lemma CreatedZoneHolds(data: seq<byte>, start: nat, end: nat, pages: nat, isZone: bool, known: Known)
    requires pages >= 1
    requires start < end ==> end - start <= if isZone then |data| else |data| - start % PAGE
    ensures var made := CreatedZone(data, start, end, pages, isZone, known);
      && (made.Refused? <==> end <= start)
      && (start < end ==>
            && made.zone.start == start && |made.zone.data| == end - start && StatisticsOf(made.zone, known)
            && forall i | 0 <= i < end - start ::
                 made.zone.data[i] == data[(if isZone then 0 else start % 4096) + i])
  {
  }

  /** What transfer_zone stores: exactly the bytes it is told, start and end as given, and the
      caller's statistics.  It refuses a zero address and an end before the start. */
  lemma TransferredZoneIsExact(data: seq<byte>, start: nat, end: nat, known: Known)
    requires start <= end ==> end - start <= |data|
    ensures var made := TransferredZone(data, start, end, known);
      && (made.Refused? <==> start == 0 || end == 0 || end < start)
      && (made.Made? ==>
            && made.zone.start == start && made.zone.end == end && StatisticsOf(made.zone, known)
            && |made.zone.data| == end - start == SizeOf(made.zone)
            && forall i | 0 <= i < end - start :: made.zone.data[i] == data[i])
  {
  }

  /** The zones invalid_op_handler creates are stored exactly: zone z of page p, found
      from byte off on, with the end moved to the page's when the zone is empty. */
  lemma TrapZonesAreExact(t: Tables, master: seq<byte>, visible: seq<byte>, off: nat, after: ZoneSearch.After, p: nat)
    requires TablesOk(t) && ZoneSearch.IsPage(master) && ZoneSearch.IsPage(visible) && off < PAGE
    requires after.Usable? ==> ZoneSearch.IsPage(after.master) && ZoneSearch.IsPage(after.visible)
    requires ZoneSearch.Stitchable(t, master, visible, off, after)
    ensures var z := ZoneSearch.TrapSearch(t, master, visible, off, after);
      z.Zone? && off < ZoneSearch.FixedEnd(off, z.end) ==>
        EndsInLastPage(p * PAGE + off, p * PAGE + ZoneSearch.FixedEnd(off, z.end), z.pages)
  {
    hide ZoneSearch.TrapSearch;
    ZoneSearch.TrapZoneEndsInLastPage(t, master, visible, off, after);
    assert (p * PAGE + off) % PAGE == off;
  }

  // ---------------------------------------------------------------- the table

  function Bucket(pid: int): (b: nat)
    ensures b < BUCKETS
  {
    pid % BUCKETS
  }

  // size is total_zones_size, count is tot_num_of_zones.
  datatype Store = Store(table: seq<seq<Node>>, size: int, count: int)

  predicate WellPlaced(s: Store) {
    && |s.table| == BUCKETS
    && forall b, n | 0 <= b < |s.table| && n in s.table[b] :: Bucket(n.pid) == b
  }

  function Stored(table: seq<seq<Node>>): multiset<Node> {
    if table == [] then multiset{} else Stored(table[..|table| - 1]) + multiset(table[|table| - 1])
  }

  function ListSize(list: seq<Node>): int {
    if list == [] then 0 else SizeOf(list[0].zone) + ListSize(list[1..])
  }

  function TotalSize(table: seq<seq<Node>>): int {
    if table == [] then 0 else TotalSize(table[..|table| - 1]) + ListSize(table[|table| - 1])
  }

  /** The counters are the sum and the number of the zones stored. */
  predicate Accounted(s: Store) { s.size == TotalSize(s.table) && s.count == |Stored(s.table)| }

  // hash_add: at the head of the bucket's list.
  function Add(s: Store, n: Node, size: int): Store
    requires |s.table| == BUCKETS
  {
    var b := Bucket(n.pid);
    Store(s.table[b := [n] + s.table[b]], s.size + size, s.count + 1)
  }

  // hash_del
  function Remove(s: Store, b: nat, i: nat): Store
    requires b < |s.table| && i < |s.table[b]|
  {
    var list := s.table[b];
    Store(s.table[b := list[..i] + list[i + 1..]], s.size - SizeOf(list[i].zone), s.count - 1)
  }

  lemma MultisetSwap(a: multiset<Node>, b: multiset<Node>, c: multiset<Node>, d: multiset<Node>, e: multiset<Node>)
    requires a + b == c + d
    ensures (a + e) + b == (c + e) + d
  {
    forall n ensures ((a + e) + b)[n] == ((c + e) + d)[n] {
      assert (a + b)[n] == (c + d)[n];
    }
  }

  // A step followed by a run.
  lemma MultisetChain(a: multiset<Node>, c: multiset<Node>, b: multiset<Node>, d: multiset<Node>,
                      c': multiset<Node>, e: multiset<Node>, d': multiset<Node>)
    requires a + c == b + d && b + c' == e + d'
    ensures a + (c + c') == e + (d + d')
  {
    forall n ensures (a + (c + c'))[n] == (e + (d + d'))[n] {
      assert (a + c)[n] == (b + d)[n] && (b + c')[n] == (e + d')[n];
    }
  }

  lemma {:induction false} BucketUpdate(table: seq<seq<Node>>, b: nat, list: seq<Node>)
    requires b < |table|
    ensures Stored(table[b := list]) + multiset(table[b]) == Stored(table) + multiset(list)
    ensures TotalSize(table[b := list]) + ListSize(table[b]) == TotalSize(table) + ListSize(list)
  {
    var n, t' := |table| - 1, table[b := list];
    assert Stored(t') == Stored(t'[..n]) + multiset(t'[n]) && Stored(table) == Stored(table[..n]) + multiset(table[n]);
    if b == n {
      assert t'[..n] == table[..n] && t'[n] == list;
    } else {
      BucketUpdate(table[..n], b, list);
      assert t'[..n] == table[..n][b := list] && t'[n] == table[n] && table[..n][b] == table[b];
      MultisetSwap(Stored(t'[..n]), multiset(table[b]), Stored(table[..n]), multiset(list), multiset(table[n]));
    }
  }

  lemma {:induction false} ListSizeJoin(a: seq<Node>, b: seq<Node>)
    ensures ListSize(a + b) == ListSize(a) + ListSize(b)
  {
    if a == [] {
      assert a + b == b;
    } else {
      ListSizeJoin(a[1..], b);
      assert (a + b)[1..] == a[1..] + b;
    }
  }

  lemma ListWithout(list: seq<Node>, i: nat)
    requires i < |list|
    ensures multiset(list) == multiset(list[..i] + list[i + 1..]) + multiset{list[i]}
    ensures ListSize(list) == ListSize(list[..i] + list[i + 1..]) + SizeOf(list[i].zone)
  {
    hide ListSize;
    var a, b := list[..i], list[i + 1..];
    assert list == a + ([list[i]] + b);
    ListSizeJoin(a, [list[i]] + b);
    ListSizeJoin([list[i]], b);
    ListSizeJoin(a, b);
    OneNode(list[i]);
  }

  lemma OneNode(n: Node)
    ensures ListSize([n]) == SizeOf(n.zone)
  {
    assert [n][1..] == [];
  }

  lemma MultisetShift(a: multiset<Node>, b: multiset<Node>, c: multiset<Node>, d: multiset<Node>)
    requires a + c == b + (d + c)
    ensures a == b + d && |a| == |b| + |d|
  {
    forall n ensures a[n] == (b + d)[n] {
      assert (a + c)[n] == (b + (d + c))[n];
    }
  }

  lemma AddAccounts(s: Store, n: Node, size: int)
    requires WellPlaced(s)
    ensures WellPlaced(Add(s, n, size)) && Stored(Add(s, n, size).table) == Stored(s.table) + multiset{n}
    ensures Accounted(s) ==> (Accounted(Add(s, n, size)) <==> size == SizeOf(n.zone))
  {
    hide Stored, TotalSize, Bucket;
    var b, s' := Bucket(n.pid), Add(s, n, size);
    var list := s.table[b];
    BucketUpdate(s.table, b, [n] + list);
    assert multiset([n] + list) == multiset{n} + multiset(list);
    assert ([n] + list)[1..] == list;
    MultisetShift(Stored(s'.table), Stored(s.table), multiset(list), multiset{n});
  }

  lemma RemoveAccounts(s: Store, b: nat, i: nat)
    requires WellPlaced(s) && b < BUCKETS && i < |s.table[b]|
    ensures WellPlaced(Remove(s, b, i))
    ensures Stored(s.table) == Stored(Remove(s, b, i).table) + multiset{s.table[b][i]}
    ensures Accounted(s) ==> Accounted(Remove(s, b, i))
  {
    hide Stored, TotalSize, Bucket;
    var list, s' := s.table[b], Remove(s, b, i);
    var rest := list[..i] + list[i + 1..];
    ListWithout(list, i);
    BucketUpdate(s.table, b, rest);
    MultisetShift(Stored(s.table), Stored(s'.table), multiset(rest), multiset{list[i]});
  }

  // ---------------------------------------------------------------- the two commands

  datatype Found = Nothing | At(bucket: nat, index: nat)

  // RD_VALUE takes the first node of the first bucket that is not empty.
  function FirstFrom(table: seq<seq<Node>>, b: nat): (f: Found)
    requires b <= |table|
    ensures f.At? ==> f.bucket < |table| && f.index < |table[f.bucket]|
    ensures f.Nothing? ==> forall k | b <= k < |table| :: table[k] == []
    decreases |table| - b
  {
    if b == |table| then Nothing else if table[b] != [] then At(b, 0) else FirstFrom(table, b + 1)
  }

  // GET_CFG_BY_PID takes the first node of the pid in the pid's bucket.
  function FirstOf(list: seq<Node>, pid: int, i: nat): (r: int)
    requires i <= |list|
    ensures r == -1 || (i <= r < |list| && list[r].pid == pid && forall k | i <= k < r :: list[k].pid != pid)
    ensures r == -1 ==> forall k | i <= k < |list| :: list[k].pid != pid
    decreases |list| - i
  {
    if i == |list| then -1 else if list[i].pid == pid then i else FirstOf(list, pid, i + 1)
  }

  function ByPid(table: seq<seq<Node>>, pid: int): (f: Found)
    requires |table| == BUCKETS
    ensures f.At? ==> f.bucket < |table| && f.index < |table[f.bucket]|
  {
    var i := FirstOf(table[Bucket(pid)], pid, 0);
    if i == -1 then Nothing else At(Bucket(pid), i)
  }

  lemma {:induction false} StoredIn(table: seq<seq<Node>>, n: Node)
    ensures n in Stored(table) <==> exists b :: 0 <= b < |table| && n in table[b]
  {
    if table != [] {
      var k := |table| - 1;
      StoredIn(table[..k], n);
      if n in Stored(table[..k]) {
        var b :| 0 <= b < k && n in table[..k][b];
        assert n in table[b];
      }
      if b :| 0 <= b < |table| && n in table[b] {
        if b < k {
          assert n in table[..k][b];
        }
      }
    }
  }

  /** RD_VALUE comes back empty-handed only when no zone is stored. */
  lemma ReadFindsAll(s: Store)
    requires WellPlaced(s)
    ensures FirstFrom(s.table, 0).Nothing? <==> Stored(s.table) == multiset{}
  {
    var f := FirstFrom(s.table, 0);
    if f.At? {
      assert s.table[f.bucket][f.index] in s.table[f.bucket];
      StoredIn(s.table, s.table[f.bucket][f.index]);
    } else if Stored(s.table) != multiset{} {
      var n :| n in Stored(s.table);
      StoredIn(s.table, n);
    }
  }

  /** GET_CFG_BY_PID finds a zone of the pid whenever one is stored. */
  lemma ByPidFindsOwn(s: Store, pid: int)
    requires WellPlaced(s)
    ensures ByPid(s.table, pid).Nothing? <==> forall n | n in Stored(s.table) :: n.pid != pid
    ensures ByPid(s.table, pid).At? ==> s.table[ByPid(s.table, pid).bucket][ByPid(s.table, pid).index].pid == pid
  {
    var f := ByPid(s.table, pid);
    if f.At? {
      var n := s.table[f.bucket][f.index];
      assert n in s.table[f.bucket];
      StoredIn(s.table, n);
    } else {
      forall n | n in Stored(s.table) ensures n.pid != pid {
        StoredIn(s.table, n);
        var b :| 0 <= b < |s.table| && n in s.table[b];
        assert b == Bucket(n.pid);
      }
    }
  }

  /** The zone of a process that was put in last is the first that GET_CFG_BY_PID finds. */
  lemma NewestOfPid(s: Store, n: Node, size: int)
    requires WellPlaced(s)
    ensures var s', f := Add(s, n, size), ByPid(Add(s, n, size).table, n.pid);
      f.At? && s'.table[f.bucket][f.index] == n
  {
  }

  /** A zone that was transferred comes back as it was given. */
  lemma TransferredZoneComesBack(s: Store, pid: int, data: seq<byte>, start: nat, end: nat, known: Known)
    requires WellPlaced(s) && 0 < start <= end && end - start <= |data|
    ensures var made := TransferredZone(data, start, end, known);
      && made.Made?
      && var s' := Add(s, Node(pid, made.zone), end - start);
         var f := ByPid(s'.table, pid);
         && f.At? && s'.table[f.bucket][f.index].pid == pid
         && var z := s'.table[f.bucket][f.index].zone;
            z.start == start && z.end == end && z.data == data[..end - start] && StatisticsOf(z, known)
  {
    TransferredZoneIsExact(data, start, end, known);
    NewestOfPid(s, Node(pid, TransferredZone(data, start, end, known).zone), end - start);
  }

  // ---------------------------------------------------------------- runs

  datatype Op = Create(node: Node, size: nat) | Read | ReadPid(pid: int)

  function FoundBy(s: Store, op: Op): (f: Found)
    requires |s.table| == BUCKETS
    ensures f.At? ==> f.bucket < |s.table| && f.index < |s.table[f.bucket]|
  {
    match op
    case Create(_, _) => Nothing
    case Read => FirstFrom(s.table, 0)
    case ReadPid(pid) => ByPid(s.table, pid)
  }

  function After(s: Store, op: Op): (s': Store)
    requires |s.table| == BUCKETS
    ensures |s'.table| == BUCKETS
  {
    if op.Create? then Add(s, op.node, op.size)
    else
      var f := FoundBy(s, op);
      if f.Nothing? then s else Remove(s, f.bucket, f.index)
  }

  function Created(ops: seq<Op>): multiset<Node> {
    if ops == [] then multiset{}
    else (if ops[0].Create? then multiset{ops[0].node} else multiset{}) + Created(ops[1..])
  }

  function Run(s: Store, ops: seq<Op>): (s': Store)
    requires |s.table| == BUCKETS
    ensures |s'.table| == BUCKETS
    decreases |ops|
  {
    if ops == [] then s else Run(After(s, ops[0]), ops[1..])
  }

  function Delivered(s: Store, ops: seq<Op>): multiset<Node>
    requires |s.table| == BUCKETS
    decreases |ops|
  {
    if ops == [] then multiset{}
    else
      var f := FoundBy(s, ops[0]);
      (if f.At? then multiset{s.table[f.bucket][f.index]} else multiset{}) + Delivered(After(s, ops[0]), ops[1..])
  }

  // Every zone put in ends where its size says.
  predicate ExactSizes(ops: seq<Op>) {
    forall op | op in ops && op.Create? :: op.size == SizeOf(op.node.zone)
  }

  lemma StepConserves(s: Store, op: Op)
    requires WellPlaced(s)
    ensures WellPlaced(After(s, op))
    ensures var f := FoundBy(s, op);
      Stored(s.table) + (if op.Create? then multiset{op.node} else multiset{})
      == Stored(After(s, op).table) + (if f.At? then multiset{s.table[f.bucket][f.index]} else multiset{})
    ensures Accounted(s) && (op.Create? ==> op.size == SizeOf(op.node.zone)) ==> Accounted(After(s, op))
  {
    hide WellPlaced, Accounted, Stored;
    WellPlacedLength(s);
    var f := FoundBy(s, op);
    if op.Create? {
      AddAccounts(s, op.node, op.size);
    } else if f.At? {
      RemoveAccounts(s, f.bucket, f.index);
    }
  }

  lemma WellPlacedLength(s: Store)
    requires WellPlaced(s)
    ensures |s.table| == BUCKETS
  {
  }

  /** Conservation: over any sequence of operations the zones created, with those
      stored before, are exactly the zones delivered and the zones stored after; and
      the two counters stay the sum and the number of the stored ones. */
  lemma {:induction false} RunConserves(s: Store, ops: seq<Op>)
    requires WellPlaced(s)
    ensures WellPlaced(Run(s, ops))
    ensures Stored(s.table) + Created(ops) == Stored(Run(s, ops).table) + Delivered(s, ops)
    ensures Accounted(s) && ExactSizes(ops) ==> Accounted(Run(s, ops))
    decreases |ops|
  {
    hide WellPlaced, Accounted, Stored, After, FoundBy;
    WellPlacedLength(s);
    if ops != [] {
      var op, f, s1 := ops[0], FoundBy(s, ops[0]), After(s, ops[0]);
      StepConserves(s, op);
      RunConserves(s1, ops[1..]);
      assert op in ops && forall o | o in ops[1..] :: o in ops;
      MultisetChain(Stored(s.table), if op.Create? then multiset{op.node} else multiset{}, Stored(s1.table),
                    if f.At? then multiset{s.table[f.bucket][f.index]} else multiset{},
                    Created(ops[1..]), Stored(Run(s, ops).table), Delivered(s1, ops[1..]));
    }
  }

  // n calls of RD_VALUE.
  function Reads(n: nat): seq<Op> { if n == 0 then [] else [Read] + Reads(n - 1) }

  /** As many reads as there are zones deliver every zone and leave none. */
  lemma {:induction false} ReadsDrain(s: Store, n: nat)
    requires WellPlaced(s) && |Stored(s.table)| == n
    ensures Stored(Run(s, Reads(n)).table) == multiset{} && Delivered(s, Reads(n)) == Stored(s.table)
    decreases n
  {
    hide Stored, WellPlaced;
    WellPlacedLength(s);
    if n > 0 {
      ReadFindsAll(s);
      var f := FirstFrom(s.table, 0);
      RemoveAccounts(s, f.bucket, f.index);
      var s1 := After(s, Read);
      assert |Stored(s.table)| == |Stored(s1.table)| + 1;
      ReadsDrain(s1, n - 1);
      assert Reads(n)[0] == Read && Reads(n)[1..] == Reads(n - 1);
    }
  }

  // ---------------------------------------------------------------- the driver

  datatype Reading = Empty | Reading(pid: int, zone: Zone)

  /** The hash table and the counters, as create_zone, transfer_zone and insp_ioctl change them. */
  class ZoneTable {
    const table: array<seq<Node>>
    var totalZonesSize: int
    var numOfZones: int

    constructor ()
      ensures fresh(table) && Valid() && Stored(Abs().table) == multiset{} && Accounted(Abs())
    {
      table := new seq<Node>[BUCKETS](_ => []);
      totalZonesSize, numOfZones := 0, 0;
      new;
      AllEmpty(table[..]);
    }

    function Abs(): Store reads this, table { Store(table[..], totalZonesSize, numOfZones) }

    ghost predicate Valid() reads this, table { WellPlaced(Abs()) }

    method Insert(node: Node, size: nat)
      requires Valid()
      modifies this, table
      ensures Abs() == Add(old(Abs()), node, size) && Valid()
    {
      AddAccounts(Abs(), node, size);
      var b := Bucket(node.pid);
      table[b] := [node] + table[b];
      totalZonesSize, numOfZones := totalZonesSize + size, numOfZones + 1;
    }

    /** create_zone */
    method CreateZone(pid: int, data: seq<byte>, start: nat, end: nat, pages: nat, isZone: bool,
                      known: Known) returns (made: Made)
      requires Valid() && pages >= 1
      requires start < end ==> end - start <= if isZone then |data| else |data| - start % PAGE
      modifies this, table
      ensures made == CreatedZone(data, start, end, pages, isZone, known) && Valid()
      ensures Abs() == if made.Made? then Add(old(Abs()), Node(pid, made.zone), end - start) else old(Abs())
    {
      made := CreatedZone(data, start, end, pages, isZone, known);
      if made.Made? {
        Insert(Node(pid, made.zone), end - start);
      }
    }

    /** transfer_zone */
    method TransferZone(pid: int, data: seq<byte>, start: nat, end: nat, known: Known) returns (made: Made)
      requires Valid() && (start <= end ==> end - start <= |data|)
      modifies this, table
      ensures made == TransferredZone(data, start, end, known) && Valid()
      ensures Abs() == if made.Made? then Add(old(Abs()), Node(pid, made.zone), end - start) else old(Abs())
    {
      made := TransferredZone(data, start, end, known);
      if made.Made? {
        Insert(Node(pid, made.zone), end - start);
      }
    }

    method Take(b: nat, i: nat) returns (r: Reading)
      requires Valid() && b < BUCKETS && i < |table[b]|
      modifies this, table
      ensures Abs() == Remove(old(Abs()), b, i) && Valid()
      ensures r == Reading(old(table[b][i]).pid, old(table[b][i]).zone)
    {
      RemoveAccounts(Abs(), b, i);
      var node := table[b][i];
      table[b] := table[b][..i] + table[b][i + 1..];
      totalZonesSize, numOfZones := totalZonesSize - (node.zone.end - node.zone.start), numOfZones - 1;
      r := Reading(node.pid, node.zone);
    }

    /** RD_VALUE */
    method RdValue() returns (r: Reading)
      requires Valid()
      modifies this, table
      ensures Abs() == After(old(Abs()), Read) && Valid()
      ensures var f := FoundBy(old(Abs()), Read);
        if f.Nothing? then r == Empty
        else r == Reading(old(Abs()).table[f.bucket][f.index].pid, old(Abs()).table[f.bucket][f.index].zone)
    {
      var b := 0;
      while b < BUCKETS
        invariant 0 <= b <= BUCKETS && FirstFrom(table[..], 0) == FirstFrom(table[..], b)
      {
        if |table[b]| > 0 {
          r := Take(b, 0);
          return;
        }
        b := b + 1;
      }
      r := Empty;
    }

    /** GET_CFG_BY_PID */
    method GetCfgByPid(pid: int) returns (r: Reading)
      requires Valid()
      modifies this, table
      ensures Abs() == After(old(Abs()), ReadPid(pid)) && Valid()
      ensures var f := FoundBy(old(Abs()), ReadPid(pid));
        if f.Nothing? then r == Empty
        else r == Reading(old(Abs()).table[f.bucket][f.index].pid, old(Abs()).table[f.bucket][f.index].zone)
    {
      var b, i := Bucket(pid), 0;
      while i < |table[b]|
        invariant 0 <= i <= |table[b]| && FirstOf(table[b], pid, 0) == FirstOf(table[b], pid, i)
      {
        if table[b][i].pid == pid {
          r := Take(b, i);
          return;
        }
        i := i + 1;
      }
      r := Empty;
    }
  }

  lemma {:induction false} AllEmpty(table: seq<seq<Node>>)
    requires forall b | 0 <= b < |table| :: table[b] == []
    ensures Stored(table) == multiset{} && TotalSize(table) == 0
  {
    if table != [] {
      AllEmpty(table[..|table| - 1]);
    }
  }
}
