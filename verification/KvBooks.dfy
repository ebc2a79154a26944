/** The ledger's books. Page reference counts, pool ownership and index charges agree with
    the records, up to what an operation holds in its hands while it is under way. */
module KvBooks {
  import opened FreeRanges
  import opened BytePools
  import opened Totals
  import opened PageMath
  import opened KvLedger

  // ---------------------------------------------------------- page references

  /** References to page `p` on behalf of one execution and its pending capture. */
  function Uses(x: Execution, p: PageId): nat {
    if x.capture.Capture? then multiset(x.pages)[p] + multiset(x.pages)[p] else multiset(x.pages)[p]
  }

  ghost function UsesOf(p: PageId): Execution -> nat { x => Uses(x, p) }
  ghost function HeldBy(p: PageId): Checkpoint -> nat { (c: Checkpoint) => multiset(c.pages)[p] }

  /** Occurrences of page `p` in executions, pending captures and checkpoints. */
  ghost function RefCount(s: Ledger, p: PageId): nat {
    Sum(s.executions, UsesOf(p)) + Sum(s.checkpoints, HeldBy(p))
  }

  /** `debt` are references an operation holds that no record accounts for. */
  ghost predicate RefAt(s: Ledger, debt: multiset<PageId>, p: PageId) {
    if p in s.pages
    then s.pages[p].references > 0 && s.pages[p].references == RefCount(s, p) + debt[p]
    else RefCount(s, p) + debt[p] == 0
  }

  ghost predicate Refs(s: Ledger, debt: multiset<PageId>) {
    forall p :: RefAt(s, debt, p)
  }

  // ---------------------------------------------------------------- ownership

  datatype Owner =
    | PageStorage(page: PageId)
    | RingOf(execution: ExecutionId) | TableOf(execution: ExecutionId)
    | CaptureSnapshot(execution: ExecutionId) | CaptureHidden(execution: ExecutionId)
    | Snapshot(checkpoint: CheckpointId) | Hidden(checkpoint: CheckpointId)

  datatype Slot = Vacant | Holding(allocation: Allocation)

  function Stored(s: Ledger, o: Owner): Slot {
    match o
    case PageStorage(p) => if p in s.pages then Holding(s.pages[p].storage) else Vacant
    case RingOf(e) => if e in s.executions then Holding(s.executions[e].ring) else Vacant
    case TableOf(e) => if e in s.executions then Holding(s.executions[e].table) else Vacant
    case CaptureSnapshot(e) =>
      if e in s.executions && s.executions[e].capture.Capture?
      then Holding(s.executions[e].capture.snapshot) else Vacant
    case CaptureHidden(e) =>
      if e in s.executions && s.executions[e].capture.Capture?
      then Holding(s.executions[e].capture.hidden) else Vacant
    case Snapshot(c) => if c in s.checkpoints then Holding(s.checkpoints[c].snapshot) else Vacant
    case Hidden(c) => if c in s.checkpoints then Holding(s.checkpoints[c].hidden) else Vacant
  }

  predicate Clash(s: Ledger, o: Owner, q: Owner) {
    Stored(s, o).Holding? && Stored(s, o) == Stored(s, q)
  }

  predicate OwnerOk(s: Ledger, loose: set<Allocation>, o: Owner) {
    Stored(s, o).Holding? ==> Stored(s, o).allocation in s.pool.live && Stored(s, o).allocation !in loose
  }

  ghost predicate Accounted(s: Ledger, loose: set<Allocation>, x: Allocation) {
    x in s.pool.live ==> x in loose || exists o :: Stored(s, o) == Holding(x)
  }

  predicate LooseOk(s: Ledger, loose: set<Allocation>, x: Allocation) {
    x in loose ==> x in s.pool.live
  }

  /** The live allocations are exactly the ones owned by one record each and the `loose` ones. */
  ghost predicate Owned(s: Ledger, loose: set<Allocation>) {
    && (forall o :: OwnerOk(s, loose, o))
    && (forall o, q :: Clash(s, o, q) ==> o == q)
    && (forall x :: LooseOk(s, loose, x))
    && (forall x :: Accounted(s, loose, x))
  }

  /** Records take over loose allocations. */
  lemma OwnedTake(s: Ledger, s': Ledger, loose: set<Allocation>, moved: map<Owner, Allocation>)
    requires Owned(s, loose) && s'.pool == s.pool
    requires forall o :: o !in moved ==> Stored(s', o) == Stored(s, o)
    requires forall o :: o in moved ==> Stored(s, o).Vacant? && Stored(s', o) == Holding(moved[o]) && moved[o] in loose
    requires forall o, q :: o in moved && q in moved && moved[o] == moved[q] ==> o == q
    ensures Owned(s', loose - moved.Values)
  {
    forall o, q | Clash(s', o, q) ensures o == q {
      assert OwnerOk(s, loose, o) && OwnerOk(s, loose, q);
      assert o !in moved && q !in moved ==> Clash(s, o, q);
    }
    forall o ensures OwnerOk(s', loose - moved.Values, o) {
      assert OwnerOk(s, loose, o);
      if o in moved { assert moved[o] in moved.Values && LooseOk(s, loose, moved[o]); }
    }
    forall x ensures LooseOk(s', loose - moved.Values, x) { assert LooseOk(s, loose, x); }
    forall x ensures Accounted(s', loose - moved.Values, x) {
      assert Accounted(s, loose, x);
      if x !in s.pool.live {
      } else if x in moved.Values {
        var o :| o in moved && moved[o] == x;
        assert Stored(s', o) == Holding(x);
      } else if x !in loose {
        var o :| Stored(s, o) == Holding(x);
        assert Stored(s', o) == Holding(x);
      }
    }
  }

  /** Records give up allocations, which become loose. */
  lemma OwnedGive(s: Ledger, s': Ledger, loose: set<Allocation>, moved: map<Owner, Allocation>)
    requires Owned(s, loose) && s'.pool == s.pool
    requires forall o :: o !in moved ==> Stored(s', o) == Stored(s, o)
    requires forall o :: o in moved ==> Stored(s', o).Vacant? && Stored(s, o) == Holding(moved[o])
    ensures Owned(s', loose + moved.Values)
    ensures loose !! moved.Values
  {
    forall o | o in moved ensures moved[o] in s.pool.live && moved[o] !in loose {
      assert OwnerOk(s, loose, o);
    }
    forall o, q | Clash(s', o, q) ensures o == q {
      assert Clash(s, o, q);
    }
    forall o ensures OwnerOk(s', loose + moved.Values, o) {
      assert OwnerOk(s, loose, o);
      forall q | Stored(s', o).Holding? && q in moved ensures Stored(s', o).allocation != moved[q] {
        assert Stored(s, o) == Stored(s', o) && o != q && !Clash(s, o, q);
      }
    }
    forall x ensures LooseOk(s', loose + moved.Values, x) { assert LooseOk(s, loose, x); }
    forall x ensures Accounted(s', loose + moved.Values, x) {
      assert Accounted(s, loose, x);
      if x in s.pool.live && x !in loose {
        var o :| Stored(s, o) == Holding(x);
        if o in moved { assert moved[o] in moved.Values; } else { assert Stored(s', o) == Holding(x); }
      }
    }
  }

  /** The pool gains the loose allocation `x`, or loses it, while the records stay. */
  lemma OwnedGrow(s: Ledger, s': Ledger, loose: set<Allocation>, x: Allocation)
    requires Owned(s, loose) && SameRecords(s, s')
    requires s'.pool.live == s.pool.live + [x] && x !in s.pool.live
    ensures Owned(s', loose + {x}) && x !in loose
  {
    assert LooseOk(s, loose, x);
    forall o ensures OwnerOk(s', loose + {x}, o) { assert OwnerOk(s, loose, o) && Stored(s', o) == Stored(s, o); }
    forall o, q | Clash(s', o, q) ensures o == q { assert Clash(s, o, q); }
    forall y ensures LooseOk(s', loose + {x}, y) { assert LooseOk(s, loose, y); }
    forall y ensures Accounted(s', loose + {x}, y) {
      assert Accounted(s, loose, y);
      if y in s.pool.live && y !in loose {
        var o :| Stored(s, o) == Holding(y);
        assert Stored(s', o) == Holding(y);
      }
    }
  }

  lemma OwnedShrink(s: Ledger, s': Ledger, loose: set<Allocation>, x: Allocation)
    requires Owned(s, loose) && SameRecords(s, s') && x in loose
    requires forall y :: y in s'.pool.live <==> y in s.pool.live && y != x
    ensures Owned(s', loose - {x})
  {
    forall o ensures OwnerOk(s', loose - {x}, o) { assert OwnerOk(s, loose, o) && Stored(s', o) == Stored(s, o); }
    forall o, q | Clash(s', o, q) ensures o == q { assert Clash(s, o, q); }
    forall y ensures LooseOk(s', loose - {x}, y) { assert LooseOk(s, loose, y); }
    forall y ensures Accounted(s', loose - {x}, y) {
      assert Accounted(s, loose, y);
      if y in s'.pool.live && y !in loose {
        var o :| Stored(s, o) == Holding(y);
        assert Stored(s', o) == Holding(y);
      }
    }
  }

  lemma OwnedSame(s: Ledger, s': Ledger, loose: set<Allocation>)
    requires Owned(s, loose) && s'.pool == s.pool && (forall o :: Stored(s', o) == Stored(s, o))
    ensures Owned(s', loose)
  {
    var none: map<Owner, Allocation> := map[];
    OwnedTake(s, s', loose, none);
    assert loose - none.Values == loose;
  }

  predicate SameRecords(s: Ledger, s': Ledger) {
    && s'.config == s.config && s'.pages == s.pages
    && s'.checkpoints == s.checkpoints && s'.executions == s.executions
  }

  // ------------------------------------------------------------- index charges

  function ExecutionBytes(config: ValidConfig, x: Execution): nat {
    config.ExecutionBytes() + if x.capture.Capture? then CheckpointBytes(|x.pages|) else 0
  }

  ghost function ExecutionCharge(config: ValidConfig): Execution -> nat { x => ExecutionBytes(config, x) }
  ghost function CheckpointCharge(): Checkpoint -> nat { (c: Checkpoint) => CheckpointBytes(|c.pages|) }

  /** Index usage is the sum of the metadata charges, and `charge` more. */
  ghost predicate Index(s: Ledger, charge: nat) {
    s.indexUsed == |s.pages| * PAGE_INFO_BYTES + Sum(s.executions, ExecutionCharge(s.config))
                   + Sum(s.checkpoints, CheckpointCharge()) + charge
  }

  // --------------------------------------------------------------------- books

  ghost predicate PoolOk(s: Ledger) {
    WellFormed(s.pool) && s.pool.capacity == s.config.gpuBytes && s.pool.tier == Gpu
  }

  predicate Ids(s: Ledger) {
    && s.nextPage > 0 && s.nextCheckpoint > 0 && s.nextExecution > 0
    && (forall p :: p in s.pages ==> 0 < p < s.nextPage)
    && (forall c :: c in s.checkpoints ==> 0 < c < s.nextCheckpoint)
    && (forall e :: e in s.executions ==> 0 < e < s.nextExecution)
  }

  ghost predicate Books(s: Ledger, debt: multiset<PageId>, loose: set<Allocation>, charge: nat) {
    Ids(s) && Refs(s, debt) && Owned(s, loose) && Index(s, charge)
  }

  lemma BooksInitial(config: ValidConfig)
    ensures PoolOk(Initial(config)) && Books(Initial(config), multiset{}, {}, 0)
  {
    var s := Initial(config);
    FreshWellFormed(config.gpuBytes, Gpu);
    SumZero(s.executions, ExecutionCharge(config));
    SumZero(s.checkpoints, CheckpointCharge());
    forall p ensures RefAt(s, multiset{}, p) {
      SumZero(s.executions, UsesOf(p));
      SumZero(s.checkpoints, HeldBy(p));
    }
  }

  lemma RefsSame(s: Ledger, s': Ledger, debt: multiset<PageId>)
    requires Refs(s, debt) && SameRecords(s, s')
    ensures Refs(s', debt)
  {
    forall p ensures RefAt(s', debt, p) { assert RefAt(s, debt, p); }
  }

  lemma BooksAllocate(s: Ledger, bytes: nat, alignment: nat, debt: multiset<PageId>, loose: set<Allocation>,
      charge: nat)
    requires PoolOk(s) && Books(s, debt, loose, charge) && Attempted(s.pool, bytes, alignment).Granted?
    ensures var Granted(pool, x) := Attempted(s.pool, bytes, alignment);
      PoolOk(s.(pool := pool)) && Books(s.(pool := pool), debt, loose + {x}, charge) && x !in loose && x.bytes == bytes
  {
    var Granted(pool, x) := Attempted(s.pool, bytes, alignment);
    AllocateWellFormed(s.pool, bytes, alignment);
    var s' := s.(pool := pool);
    RefsSame(s, s', debt);
    OwnedGrow(s, s', loose, x);
  }

  lemma BooksFree(s: Ledger, x: Allocation, debt: multiset<PageId>, loose: set<Allocation>, charge: nat)
    requires PoolOk(s) && Books(s, debt, loose, charge) && x in loose
    ensures x in s.pool.live && PoolOk(s.(pool := Released(s.pool, x)))
    ensures Books(s.(pool := Released(s.pool, x)), debt, loose - {x}, charge)
  {
    assert LooseOk(s, loose, x);
    ReleaseWellFormed(s.pool, x);
    var s' := s.(pool := Released(s.pool, x));
    RefsSame(s, s', debt);
    OwnedShrink(s, s', loose, x);
  }

  lemma RefsRetain(s: Ledger, ids: seq<PageId>, debt: multiset<PageId>)
    requires Refs(s, debt) && (forall p :: p in ids ==> p in s.pages)
    ensures Refs(s.(pages := Retained(s.pages, ids)), debt + multiset(ids))
  {
    var s' := s.(pages := Retained(s.pages, ids));
    forall p ensures RefAt(s', debt + multiset(ids), p) {
      assert RefAt(s, debt, p);
      assert p in multiset(ids) ==> p in ids;
    }
  }

  lemma BooksRetain(s: Ledger, ids: seq<PageId>, debt: multiset<PageId>, loose: set<Allocation>, charge: nat)
    requires Books(s, debt, loose, charge) && (forall p :: p in ids ==> p in s.pages)
    ensures Books(s.(pages := Retained(s.pages, ids)), debt + multiset(ids), loose, charge)
  {
    var s' := s.(pages := Retained(s.pages, ids));
    SameKeys(s.pages, s'.pages);
    RefsRetain(s, ids, debt);
    OwnedSameStorage(s, s', loose);
  }

  lemma SameKeys<K(!new), V>(m: map<K, V>, n: map<K, V>)
    requires m.Keys == n.Keys
    ensures |m| == |n|
  {
    assert |m| == |m.Keys| && |n| == |n.Keys|;
  }

  /** Page bookkeeping that leaves every storage in place does not touch ownership. */
  lemma OwnedSameStorage(s: Ledger, s': Ledger, loose: set<Allocation>)
    requires Owned(s, loose) && s'.pool == s.pool
    requires s'.executions == s.executions && s'.checkpoints == s.checkpoints
    requires s'.pages.Keys == s.pages.Keys && (forall p :: p in s.pages ==> s'.pages[p].storage == s.pages[p].storage)
    ensures Owned(s', loose)
  {
    forall o ensures Stored(s', o) == Stored(s, o) {
      if o.PageStorage? { assert o.page in s.pages <==> o.page in s'.pages; }
    }
    OwnedSame(s, s', loose);
  }

  lemma OwnedDropPage(s: Ledger, s': Ledger, loose: set<Allocation>, p: PageId)
    requires Owned(s, loose) && s'.pool == s.pool && p in s.pages && s'.pages == s.pages - {p}
    requires s'.executions == s.executions && s'.checkpoints == s.checkpoints
    ensures Owned(s', loose + {s.pages[p].storage}) && s.pages[p].storage !in loose
  {
    var moved := map[PageStorage(p) := s.pages[p].storage];
    OwnedGive(s, s', loose, moved);
    assert PageStorage(p) in moved && moved.Values == {s.pages[p].storage};
  }

  lemma OwnedAddPage(s: Ledger, s': Ledger, loose: set<Allocation>, p: PageId, page: Page)
    requires Owned(s, loose) && s'.pool == s.pool && p !in s.pages && s'.pages == s.pages[p := page]
    requires s'.executions == s.executions && s'.checkpoints == s.checkpoints && page.storage in loose
    ensures Owned(s', loose - {page.storage})
  {
    var moved := map[PageStorage(p) := page.storage];
    OwnedTake(s, s', loose, moved);
    assert PageStorage(p) in moved && moved.Values == {page.storage};
  }

  lemma KeysDrop<K(!new), V>(m: map<K, V>, k: K)
    requires k in m
    ensures |m - {k}| == |m| - 1
  {
    assert (m - {k}).Keys == m.Keys - {k};
    assert |(m - {k}).Keys| == |m.Keys| - 1;
  }

  lemma KeysAdd<K(!new), V>(m: map<K, V>, k: K, v: V)
    requires k !in m
    ensures |m[k := v]| == |m| + 1
  {
    assert m[k := v].Keys == m.Keys + {k};
    assert |m[k := v].Keys| == |m.Keys| + 1;
  }

  lemma RefsDrop(s: Ledger, s': Ledger, p: PageId, debt: multiset<PageId>)
    requires Refs(s, debt) && p in debt && p in s.pages
    requires s'.executions == s.executions && s'.checkpoints == s.checkpoints
    requires s.pages[p].references > 1 ==>
               s'.pages == s.pages[p := s.pages[p].(references := s.pages[p].references - 1)]
    requires s.pages[p].references == 1 ==> s'.pages == s.pages - {p}
    ensures Refs(s', debt - multiset{p})
  {
    assert RefAt(s, debt, p);
    forall q ensures RefAt(s', debt - multiset{p}, q) {
      assert RefAt(s, debt, q);
      assert q != p ==> (debt - multiset{p})[q] == debt[q];
    }
  }

  lemma BooksReleasePage(s: Ledger, p: PageId, debt: multiset<PageId>, loose: set<Allocation>, charge: nat)
    requires PoolOk(s) && Books(s, debt, loose, charge) && p in debt
    ensures p in s.pages && s.pages[p].references > 0
    ensures PoolOk(ReleasePage(s, p)) && Books(ReleasePage(s, p), debt - multiset{p}, loose, charge)
  {
    assert RefAt(s, debt, p);
    var s' := ReleasePage(s, p);
    if s.pages[p].references > 1 {
      SameKeys(s.pages, s'.pages);
      OwnedSameStorage(s, s', loose);
      RefsDrop(s, s', p, debt);
    } else {
      BooksDropPage(s, p, debt, loose, charge);
    }
  }

  lemma BooksDropPage(s: Ledger, p: PageId, debt: multiset<PageId>, loose: set<Allocation>, charge: nat)
    requires PoolOk(s) && Books(s, debt, loose, charge) && p in debt && p in s.pages && s.pages[p].references == 1
    ensures PoolOk(ReleasePage(s, p)) && Books(ReleasePage(s, p), debt - multiset{p}, loose, charge)
  {
    var storage := s.pages[p].storage;
    var dropped := s.(pages := s.pages - {p}, indexUsed := Less(s.indexUsed, PAGE_INFO_BYTES));
    KeysDrop(s.pages, p);
    RefsDrop(s, dropped, p, debt);
    OwnedDropPage(s, dropped, loose, p);
    BooksFree(dropped, storage, debt - multiset{p}, loose + {storage}, charge);
    assert loose + {storage} - {storage} == loose;
  }

  lemma {:induction false} BooksReleaseAll(s: Ledger, ids: seq<PageId>, debt: multiset<PageId>, loose: set<Allocation>,
      charge: nat)
    requires PoolOk(s) && Books(s, debt, loose, charge) && multiset(ids) <= debt
    ensures PoolOk(ReleaseAll(s, ids)) && Books(ReleaseAll(s, ids), debt - multiset(ids), loose, charge)
    decreases |ids|
  {
    if ids == [] {
      assert debt - multiset(ids) == debt;
    } else {
      DebtFirst(ids, debt);
      BooksReleasePage(s, ids[0], debt, loose, charge);
      BooksReleaseAll(ReleasePage(s, ids[0]), ids[1..], debt - multiset{ids[0]}, loose, charge);
    }
  }

  lemma DebtFirst(ids: seq<PageId>, debt: multiset<PageId>)
    requires ids != [] && multiset(ids) <= debt
    ensures ids[0] in debt && multiset(ids[1..]) <= debt - multiset{ids[0]}
    ensures debt - multiset{ids[0]} - multiset(ids[1..]) == debt - multiset(ids)
  {
    assert ids == [ids[0]] + ids[1..];
    assert multiset(ids) == multiset{ids[0]} + multiset(ids[1..]);
  }

  lemma RefsNewPage(s: Ledger, s': Ledger, p: PageId, page: Page, debt: multiset<PageId>)
    requires Refs(s, debt) && p !in s.pages && page.references == 1
    requires s'.executions == s.executions && s'.checkpoints == s.checkpoints && s'.pages == s.pages[p := page]
    ensures Refs(s', debt + multiset{p})
  {
    forall q ensures RefAt(s', debt + multiset{p}, q) {
      assert RefAt(s, debt, q);
    }
  }

  lemma BooksCreatePage(s: Ledger, firstToken: nat, debt: multiset<PageId>, loose: set<Allocation>, charge: nat)
    requires PoolOk(s) && Books(s, debt, loose, charge) && CreatePage(s, firstToken).Made?
    ensures var (s', p) := CreatePage(s, firstToken).value;
      p == s.nextPage && p !in s.pages && PoolOk(s') && Books(s', debt + multiset{p}, loose, charge)
  {
    var (s', p) := CreatePage(s, firstToken).value;
    BooksAllocate(s, s.config.pageBytes, ALIGNMENT, debt, loose, charge);
    var Granted(pool, x) := Attempted(s.pool, s.config.pageBytes, ALIGNMENT);
    var s1 := s.(pool := pool);
    assert p !in s.pages;
    RefsNewPage(s, s', p, Page(x, firstToken, 0, 1), debt);
    KeysAdd(s.pages, p, Page(x, firstToken, 0, 1));
    OwnedAddPage(s1, s', loose + {x}, p, Page(x, firstToken, 0, 1));
    assert loose + {x} - {x} == loose;
  }
}
