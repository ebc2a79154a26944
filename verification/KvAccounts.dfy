/** Conservation: the pool's usage is the sum of what the records own, byte by byte, so the
    ledger's memory statistics and self-checks can never fail. */
module KvAccounts {
  import opened FreeRanges
  import opened BytePools
  import opened Totals
  import opened PageMath
  import opened KvLedger
  import opened KvBooks
  import opened KvRecords
  import opened KvInvariant
  import opened KvReclaim

  // ------------------------------------------------------- bytes of allocation sets

  ghost function Sizes(xs: set<Allocation>): map<Allocation, nat> { map x | x in xs :: x.bytes }

  ghost function SetBytes(xs: set<Allocation>): nat { Total(Sizes(xs)) }

  lemma SetBytesEmpty()
    ensures SetBytes({}) == 0
  {
    TotalZero(Sizes({}));
  }

  lemma SetBytesAdd(xs: set<Allocation>, x: Allocation)
    requires x !in xs
    ensures SetBytes(xs + {x}) == SetBytes(xs) + x.bytes
  {
    TotalInsert(Sizes(xs), x, x.bytes);
    assert Sizes(xs + {x}) == Sizes(xs)[x := x.bytes];
  }

  lemma SetBytesUnion(xs: set<Allocation>, ys: set<Allocation>)
    requires xs !! ys
    ensures SetBytes(xs + ys) == SetBytes(xs) + SetBytes(ys)
  {
    assert Units(Sizes(xs + ys)) == Units(Sizes(xs)) + Units(Sizes(ys));
  }

  function Elements(live: seq<Allocation>): set<Allocation> { set x | x in live }

  lemma {:induction false} LiveSet(live: seq<Allocation>)
    requires forall i, j :: 0 <= i < j < |live| ==> live[i] != live[j]
    ensures LiveBytes(live) == SetBytes(Elements(live))
  {
    if live == [] {
      SetBytesEmpty();
      assert Elements(live) == {};
    } else {
      LiveSet(live[1..]);
      SetBytesAdd(Elements(live[1..]), live[0]);
      assert Elements(live) == Elements(live[1..]) + {live[0]};
    }
  }

  // ------------------------------------------------------------ bytes of the records

  /** The allocations the values of `m` hold in one of their fields. */
  ghost function Image<K(!new), V>(m: map<K, V>, pick: V -> Slot): set<Allocation> {
    set k | k in m && pick(m[k]).Holding? :: pick(m[k]).allocation
  }

  function SlotBytes(slot: Slot): nat { if slot.Holding? then slot.allocation.bytes else 0 }

  ghost function BytesOf<V>(pick: V -> Slot): V -> nat { v => SlotBytes(pick(v)) }

  ghost predicate Distinct<K(!new), V>(m: map<K, V>, pick: V -> Slot) {
    forall j, k :: j in m && k in m && pick(m[j]).Holding? && pick(m[j]) == pick(m[k]) ==> j == k
  }

  lemma {:induction false} ImageBytes<K(!new), V>(m: map<K, V>, pick: V -> Slot)
    requires Distinct(m, pick)
    ensures SetBytes(Image(m, pick)) == Sum(m, BytesOf(pick))
    decreases |m|
  {
    if m == map[] {
      SumZero(m, BytesOf(pick));
      SetBytesEmpty();
      assert Image(m, pick) == {};
    } else {
      var k :| k in m;
      var rest := m - {k};
      KeysDrop(m, k);
      ImageBytes(rest, pick);
      SumRemove(m, BytesOf(pick), k);
      ImageBytesDrop(m, pick, k);
    }
  }

  lemma ImageBytesDrop<K(!new), V>(m: map<K, V>, pick: V -> Slot, k: K)
    requires Distinct(m, pick) && k in m
    ensures SetBytes(Image(m, pick)) == SetBytes(Image(m - {k}, pick)) + SlotBytes(pick(m[k]))
  {
    ImageDrop(m, pick, k);
    if pick(m[k]).Holding? { SetBytesAdd(Image(m - {k}, pick), pick(m[k]).allocation); }
    else { assert Image(m, pick) == Image(m - {k}, pick); }
  }

  lemma ImageDrop<K(!new), V>(m: map<K, V>, pick: V -> Slot, k: K)
    requires Distinct(m, pick) && k in m
    ensures Image(m, pick) == Image(m - {k}, pick) + if pick(m[k]).Holding? then {pick(m[k]).allocation} else {}
    ensures pick(m[k]).Holding? ==> pick(m[k]).allocation !in Image(m - {k}, pick)
  {
    var rest := m - {k};
    forall x ensures x in Image(m, pick) <==> x in Image(rest, pick) || pick(m[k]) == Holding(x) {
      if x in Image(m, pick) {
        var j :| j in m && pick(m[j]).Holding? && pick(m[j]).allocation == x;
        if j != k { assert rest[j] == m[j]; }
      }
      if x in Image(rest, pick) {
        var j :| j in rest && pick(rest[j]).Holding? && pick(rest[j]).allocation == x;
        assert m[j] == rest[j];
      }
    }
  }

  function StorageOf(): Page -> Slot { (p: Page) => Holding(p.storage) }
  function RingSlot(): Execution -> Slot { (x: Execution) => Holding(x.ring) }
  function TableSlot(): Execution -> Slot { (x: Execution) => Holding(x.table) }
  function CaptureSnapshotSlot(): Execution -> Slot {
    (x: Execution) => if x.capture.Capture? then Holding(x.capture.snapshot) else Vacant
  }
  function CaptureHiddenSlot(): Execution -> Slot {
    (x: Execution) => if x.capture.Capture? then Holding(x.capture.hidden) else Vacant
  }
  function SnapshotSlot(): Checkpoint -> Slot { (c: Checkpoint) => Holding(c.snapshot) }
  function HiddenSlot(): Checkpoint -> Slot { (c: Checkpoint) => Holding(c.hidden) }

  /** The allocations held under one kind of owner. */
  predicate StoredBy<K(!new), V>(s: Ledger, m: map<K, V>, pick: V -> Slot, owner: K -> Owner, k: K) {
    if k in m then Stored(s, owner(k)) == pick(m[k]) else Stored(s, owner(k)) == Vacant
  }

  // ------------------------------------------------------------------ kinds of owner

  type Kind = Owner -> bool

  function Either(kind: Kind, other: Kind): Kind { (o: Owner) => kind(o) || other(o) }

  /** `x` is held by an owner of the given kind. */
  ghost predicate HeldAs(s: Ledger, x: Allocation, kind: Kind) {
    exists o :: kind(o) && Stored(s, o) == Holding(x)
  }

  predicate Agrees(s: Ledger, xs: set<Allocation>, kind: Kind, o: Owner) {
    kind(o) && Stored(s, o).Holding? ==> Stored(s, o).allocation in xs
  }

  ghost predicate Backed(s: Ledger, xs: set<Allocation>, kind: Kind, x: Allocation) {
    x in xs ==> HeldAs(s, x, kind)
  }

  /** Owners of this kind hold exactly the allocations `xs`, `bytes` in all. */
  ghost predicate Holds(s: Ledger, xs: set<Allocation>, bytes: nat, kind: Kind) {
    SetBytes(xs) == bytes && (forall o :: Agrees(s, xs, kind, o)) && (forall x :: Backed(s, xs, kind, x))
  }

  predicate KindOf<K(!new)>(kind: Kind, owner: K -> Owner, k: K) { kind(owner(k)) }

  ghost predicate OnlyFrom<K(!new)>(kind: Kind, owner: K -> Owner, o: Owner) { kind(o) ==> exists k :: o == owner(k) }

  lemma KindHolds<K(!new), V>(s: Ledger, m: map<K, V>, pick: V -> Slot, owner: K -> Owner, kind: Kind,
      loose: set<Allocation>)
    requires Owned(s, loose) && (forall j, k :: owner(j) == owner(k) ==> j == k)
    requires forall k :: StoredBy(s, m, pick, owner, k)
    requires forall k :: KindOf(kind, owner, k)
    requires forall o :: OnlyFrom(kind, owner, o)
    ensures Holds(s, Image(m, pick), Sum(m, BytesOf(pick)), kind)
  {
    forall j, k | j in m && k in m && pick(m[j]).Holding? && pick(m[j]) == pick(m[k]) ensures j == k {
      assert StoredBy(s, m, pick, owner, j) && StoredBy(s, m, pick, owner, k);
      assert Clash(s, owner(j), owner(k));
    }
    ImageBytes(m, pick);
    forall o ensures Agrees(s, Image(m, pick), kind, o) {
      assert OnlyFrom(kind, owner, o);
      if kind(o) {
        var k :| o == owner(k);
        assert StoredBy(s, m, pick, owner, k);
      }
    }
    forall x ensures Backed(s, Image(m, pick), kind, x) {
      if x in Image(m, pick) {
        var k :| k in m && pick(m[k]).Holding? && pick(m[k]).allocation == x;
        assert StoredBy(s, m, pick, owner, k) && KindOf(kind, owner, k);
      }
    }
  }

  lemma BothHold(s: Ledger, xs: set<Allocation>, m: nat, kind: Kind, ys: set<Allocation>, n: nat, other: Kind,
      loose: set<Allocation>)
    requires Owned(s, loose) && (forall o :: !(kind(o) && other(o)))
    requires Holds(s, xs, m, kind) && Holds(s, ys, n, other)
    ensures Holds(s, xs + ys, m + n, Either(kind, other))
  {
    forall x | x in xs ensures x !in ys {
      assert Backed(s, xs, kind, x) && Backed(s, ys, other, x);
      if x in ys {
        var o :| kind(o) && Stored(s, o) == Holding(x);
        var q :| other(q) && Stored(s, q) == Holding(x);
        assert Clash(s, o, q);
      }
    }
    SetBytesUnion(xs, ys);
    forall o ensures Agrees(s, xs + ys, Either(kind, other), o) {
      assert Agrees(s, xs, kind, o) && Agrees(s, ys, other, o);
    }
    forall x ensures Backed(s, xs + ys, Either(kind, other), x) {
      assert Backed(s, xs, kind, x) && Backed(s, ys, other, x);
      if x in xs { var o :| kind(o) && Stored(s, o) == Holding(x); assert Either(kind, other)(o); }
      else if x in ys { var o :| other(o) && Stored(s, o) == Holding(x); assert Either(kind, other)(o); }
    }
  }

  lemma LiveDistinct(pool: Pool)
    requires WellFormed(pool)
    ensures LiveBytes(pool.live) == SetBytes(Elements(pool.live))
  {
    forall i, j | 0 <= i < j < |pool.live| ensures pool.live[i] != pool.live[j] {
      assert ApartAt(pool.live, i, j);
    }
    LiveSet(pool.live);
  }

  /** When a kind covers every owner, its bytes and the loose ones are the pool's usage. */
  lemma AllHold(s: Ledger, xs: set<Allocation>, bytes: nat, kind: Kind, loose: set<Allocation>)
    requires PoolOk(s) && Owned(s, loose) && Holds(s, xs, bytes, kind) && (forall o :: kind(o))
    ensures s.pool.used == bytes + SetBytes(loose)
  {
    LiveDistinct(s.pool);
    forall x | x in xs ensures x in s.pool.live && x !in loose {
      assert Backed(s, xs, kind, x);
      var o :| kind(o) && Stored(s, o) == Holding(x);
      assert OwnerOk(s, loose, o);
    }
    forall x | x in s.pool.live && x !in loose ensures x in xs {
      assert Accounted(s, loose, x);
      var o :| Stored(s, o) == Holding(x);
      assert Agrees(s, xs, kind, o);
    }
    forall x | x in loose ensures x in s.pool.live { assert LooseOk(s, loose, x); }
    assert Elements(s.pool.live) == xs + loose;
    SetBytesUnion(xs, loose);
  }

  // ------------------------------------------------------------------- conservation

  ghost function StorageSum(ps: map<PageId, Page>): nat { Sum(ps, BytesOf(StorageOf())) }
  ghost function BufferSum(es: map<ExecutionId, Execution>): nat {
    Sum(es, BytesOf(RingSlot())) + Sum(es, BytesOf(TableSlot()))
  }
  ghost function CaptureSum(es: map<ExecutionId, Execution>): nat {
    Sum(es, BytesOf(CaptureSnapshotSlot())) + Sum(es, BytesOf(CaptureHiddenSlot()))
  }
  ghost function StateSum(cs: map<CheckpointId, Checkpoint>): nat {
    Sum(cs, BytesOf(SnapshotSlot())) + Sum(cs, BytesOf(HiddenSlot()))
  }

  ghost function PageBytes(s: Ledger): nat { StorageSum(s.pages) }
  ghost function BufferBytes(s: Ledger): nat { BufferSum(s.executions) }
  ghost function CaptureBytes(s: Ledger): nat { CaptureSum(s.executions) }
  ghost function StateBytes(s: Ledger): nat { StateSum(s.checkpoints) }

  function IsPage(): Kind { (o: Owner) => o.PageStorage? }
  function IsRing(): Kind { (o: Owner) => o.RingOf? }
  function IsTable(): Kind { (o: Owner) => o.TableOf? }
  function IsCaptureSnapshot(): Kind { (o: Owner) => o.CaptureSnapshot? }
  function IsCaptureHidden(): Kind { (o: Owner) => o.CaptureHidden? }
  function IsSnapshot(): Kind { (o: Owner) => o.Snapshot? }
  function IsHidden(): Kind { (o: Owner) => o.Hidden? }

  lemma PageKind(s: Ledger, loose: set<Allocation>)
    requires Owned(s, loose)
    ensures Holds(s, Image(s.pages, StorageOf()), PageBytes(s), IsPage())
  {
    var owner := (p: PageId) => PageStorage(p);
    forall o ensures OnlyFrom(IsPage(), owner, o) { if o.PageStorage? { assert o == owner(o.page); } }
    KindHolds(s, s.pages, StorageOf(), owner, IsPage(), loose);
  }

  lemma BufferKind(s: Ledger, loose: set<Allocation>)
    requires Owned(s, loose)
    ensures Holds(s, Image(s.executions, RingSlot()) + Image(s.executions, TableSlot()), BufferBytes(s),
      Either(IsRing(), IsTable()))
  {
    var ring, table := (e: ExecutionId) => RingOf(e), (e: ExecutionId) => TableOf(e);
    forall o ensures OnlyFrom(IsRing(), ring, o) { if o.RingOf? { assert o == ring(o.execution); } }
    forall o ensures OnlyFrom(IsTable(), table, o) { if o.TableOf? { assert o == table(o.execution); } }
    KindHolds(s, s.executions, RingSlot(), ring, IsRing(), loose);
    KindHolds(s, s.executions, TableSlot(), table, IsTable(), loose);
    BothHold(s, Image(s.executions, RingSlot()), Sum(s.executions, BytesOf(RingSlot())), IsRing(),
             Image(s.executions, TableSlot()), Sum(s.executions, BytesOf(TableSlot())), IsTable(), loose);
  }

  lemma CaptureKind(s: Ledger, loose: set<Allocation>)
    requires Owned(s, loose)
    ensures Holds(s, Image(s.executions, CaptureSnapshotSlot()) + Image(s.executions, CaptureHiddenSlot()),
      CaptureBytes(s),
                  Either(IsCaptureSnapshot(), IsCaptureHidden()))
  {
    var snapshot, hidden := (e: ExecutionId) => CaptureSnapshot(e), (e: ExecutionId) => CaptureHidden(e);
    forall o ensures OnlyFrom(IsCaptureSnapshot(), snapshot, o) {
      if o.CaptureSnapshot? { assert o == snapshot(o.execution); }
    }
    forall o ensures OnlyFrom(IsCaptureHidden(), hidden, o) { if o.CaptureHidden? { assert o == hidden(o.execution); } }
    KindHolds(s, s.executions, CaptureSnapshotSlot(), snapshot, IsCaptureSnapshot(), loose);
    KindHolds(s, s.executions, CaptureHiddenSlot(), hidden, IsCaptureHidden(), loose);
    BothHold(s, Image(s.executions, CaptureSnapshotSlot()), Sum(s.executions, BytesOf(CaptureSnapshotSlot())),
        IsCaptureSnapshot(),
             Image(s.executions, CaptureHiddenSlot()), Sum(s.executions, BytesOf(CaptureHiddenSlot())),
                 IsCaptureHidden(), loose);
  }

  lemma StateKind(s: Ledger, loose: set<Allocation>)
    requires Owned(s, loose)
    ensures Holds(s, Image(s.checkpoints, SnapshotSlot()) + Image(s.checkpoints, HiddenSlot()), StateBytes(s),
                  Either(IsSnapshot(), IsHidden()))
  {
    var snapshot, hidden := (c: CheckpointId) => Snapshot(c), (c: CheckpointId) => Hidden(c);
    forall o ensures OnlyFrom(IsSnapshot(), snapshot, o) { if o.Snapshot? { assert o == snapshot(o.checkpoint); } }
    forall o ensures OnlyFrom(IsHidden(), hidden, o) { if o.Hidden? { assert o == hidden(o.checkpoint); } }
    KindHolds(s, s.checkpoints, SnapshotSlot(), snapshot, IsSnapshot(), loose);
    KindHolds(s, s.checkpoints, HiddenSlot(), hidden, IsHidden(), loose);
    BothHold(s, Image(s.checkpoints, SnapshotSlot()), Sum(s.checkpoints, BytesOf(SnapshotSlot())), IsSnapshot(),
             Image(s.checkpoints, HiddenSlot()), Sum(s.checkpoints, BytesOf(HiddenSlot())), IsHidden(), loose);
  }

  /** Pool usage is exactly the bytes of pages, execution buffers, pending captures, checkpoint
      state and caller allocations. */
  lemma PoolConservation(s: Ledger, outside: set<Allocation>)
    requires PoolOk(s) && Owned(s, outside)
    ensures s.pool.used == PageBytes(s) + BufferBytes(s) + CaptureBytes(s) + StateBytes(s) + SetBytes(outside)
  {
    var left := MemoryKind(s, outside);
    var right := PayloadKind(s, outside);
    BothHold(s, left, PageBytes(s) + BufferBytes(s), IsMemory(), right, CaptureBytes(s) + StateBytes(s), IsPayload(),
        outside);
    AllHold(s, left + right, PageBytes(s) + BufferBytes(s) + (CaptureBytes(s) + StateBytes(s)),
        Either(IsMemory(), IsPayload()), outside);
  }

  function IsMemory(): Kind { Either(IsPage(), Either(IsRing(), IsTable())) }

  function IsPayload(): Kind {
    Either(Either(IsCaptureSnapshot(), IsCaptureHidden()), Either(IsSnapshot(), IsHidden()))
  }

  lemma MemoryKind(s: Ledger, outside: set<Allocation>) returns (xs: set<Allocation>)
    requires Owned(s, outside)
    ensures Holds(s, xs, PageBytes(s) + BufferBytes(s), IsMemory())
  {
    PageKind(s, outside);
    BufferKind(s, outside);
    var a := Image(s.pages, StorageOf());
    var b := Image(s.executions, RingSlot()) + Image(s.executions, TableSlot());
    BothHold(s, a, PageBytes(s), IsPage(), b, BufferBytes(s), Either(IsRing(), IsTable()), outside);
    xs := a + b;
  }

  lemma PayloadKind(s: Ledger, outside: set<Allocation>) returns (xs: set<Allocation>)
    requires Owned(s, outside)
    ensures Holds(s, xs, CaptureBytes(s) + StateBytes(s), IsPayload())
  {
    CaptureKind(s, outside);
    StateKind(s, outside);
    var c := Image(s.executions, CaptureSnapshotSlot()) + Image(s.executions, CaptureHiddenSlot());
    var d := Image(s.checkpoints, SnapshotSlot()) + Image(s.checkpoints, HiddenSlot());
    BothHold(s, c, CaptureBytes(s), Either(IsCaptureSnapshot(), IsCaptureHidden()), d, StateBytes(s),
             Either(IsSnapshot(), IsHidden()), outside);
    xs := c + d;
  }
}
