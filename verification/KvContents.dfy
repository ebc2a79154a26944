/** What the pages hold. Physical memory is addressed by the storage of a page, and a write
    copies and stores rows through the writer's page table. Seen from outside, every
    execution, pending capture and checkpoint has a private full history. */
module KvContents {
  import opened FreeRanges
  import opened BytePools
  import opened Totals
  import opened PageMath
  import opened KvLedger
  import opened KvBooks
  import opened KvRecords
  import opened KvInvariant
  import opened KvReclaim
  import opened KvAdmission
  import opened KvWrites

  /** The state of one token in the global pages. */
  type Row = int

  /** Memory at a storage offset and a row within the page. */
  type Memory = (nat, nat) -> Row

  // ------------------------------------------------------------------- reading

  predicate RowAt(s: Ledger, memory: Memory, pages: seq<PageId>, history: seq<Row>, i: nat, k: nat) {
    i < |pages| && k < s.config.pageTokens && FirstToken(i, s.config.pageTokens) + k < |history| ==>
      && pages[i] in s.pages
      && memory(s.pages[pages[i]].storage.offset, k) == history[FirstToken(i, s.config.pageTokens) + k]
  }

  /** The page table `pages` reads as `history`. */
  ghost predicate Reads(s: Ledger, memory: Memory, pages: seq<PageId>, history: seq<Row>) {
    forall i, k :: RowAt(s, memory, pages, history, i, k)
  }

  // ------------------------------------------------------------------- writing

  /** Copies the page contents a plan asks for. */
  function Copied(memory: Memory, from: nat, to: nat): Memory {
    (o: nat, k: nat) => memory(if o == to then from else o, k)
  }

  function CopyAll(s: Ledger, s': Ledger, memory: Memory, copies: seq<(PageId, PageId)>): Memory {
    if copies == [] then memory
    else
      var (from, to) := copies[|copies| - 1];
      var before := CopyAll(s, s', memory, copies[..|copies| - 1]);
      if from in s.pages && to in s'.pages
      then Copied(before, s.pages[from].storage.offset, s'.pages[to].storage.offset)
      else before
  }

  predicate Hits(s: Ledger, pages: seq<PageId>, first: nat, end: nat, o: nat, k: nat, i: nat) {
    && i < |pages| && k < s.config.pageTokens && pages[i] in s.pages
    && s.pages[pages[i]].storage.offset == o
    && first <= FirstToken(i, s.config.pageTokens) + k < end
  }

  /** The table entry through which row `k` at offset `o` is written. */
  ghost function Entry(s: Ledger, pages: seq<PageId>, first: nat, end: nat, o: nat, k: nat): (i: nat)
    requires exists i: nat :: Hits(s, pages, first, end, o, k, i)
    ensures Hits(s, pages, first, end, o, k, i)
  {
    var i: nat :| Hits(s, pages, first, end, o, k, i);
    i
  }

  /** Stores rows for the tokens `first ..` through a page table. */
  ghost function Overwritten(s: Ledger, memory: Memory, pages: seq<PageId>, first: nat, end: nat,
      data: seq<Row>): Memory
    requires end == first + |data|
  {
    (o: nat, k: nat) =>
      if exists i: nat :: Hits(s, pages, first, end, o, k, i)
      then data[FirstToken(Entry(s, pages, first, end, o, k), s.config.pageTokens) + k - first]
      else memory(o, k)
  }

  /** The device side of a write: the planned copies, then the new rows. */
  ghost function AfterWrite(s: Ledger, s': Ledger, e: ExecutionId, memory: Memory, first: nat, end: nat,
      data: seq<Row>, plan: WritePlan): Memory
    requires e in s'.executions && end == first + |data|
  {
    Overwritten(s', CopyAll(s, s', memory, plan.copies), s'.executions[e].pages, first, end, data)
  }

  // ------------------------------------------------------------ distinct storage

  /** Distinct pages lie at distinct offsets. */
  lemma OffsetsApart(s: Ledger, p: PageId, q: PageId, outside: set<Allocation>)
    requires PoolOk(s) && Owned(s, outside) && p in s.pages && q in s.pages && p != q
    ensures s.pages[p].storage.offset != s.pages[q].storage.offset
  {
    var x, y := s.pages[p].storage, s.pages[q].storage;
    assert OwnerOk(s, outside, PageStorage(p)) && OwnerOk(s, outside, PageStorage(q));
    assert !Clash(s, PageStorage(p), PageStorage(q));
    LiveApart(s.pool, x, y);
    assert LiveAt(s.pool, x) && LiveAt(s.pool, y);
  }

  /** No page occurs twice in a table. */
  lemma TableDistinct(s: Ledger, pages: seq<PageId>, tokens: nat, i: nat, j: nat)
    requires Table(s, pages, tokens) && i < |pages| && j < |pages| && pages[i] == pages[j]
    ensures i == j
  {
    assert PageAt(s, pages, tokens, i) && PageAt(s, pages, tokens, j);
    if i < j {
      MulLe(i + 1, j, s.config.pageTokens);
      Distribute(i, s.config.pageTokens);
    } else if j < i {
      MulLe(j + 1, i, s.config.pageTokens);
      Distribute(j, s.config.pageTokens);
    }
  }

  // ------------------------------------------------------------------ stability

  predicate StorageStays(s: Ledger, s': Ledger, pages: seq<PageId>, i: nat) {
    i < |pages| && pages[i] in s.pages ==>
      pages[i] in s'.pages && s'.pages[pages[i]].storage == s.pages[pages[i]].storage
  }

  predicate MemorySame(s: Ledger, memory: Memory, memory': Memory, pages: seq<PageId>, i: nat, k: nat) {
    i < |pages| && pages[i] in s.pages ==>
      memory'(s.pages[pages[i]].storage.offset, k) == memory(s.pages[pages[i]].storage.offset, k)
  }

  lemma ReadsStay(s: Ledger, s': Ledger, memory: Memory, memory': Memory, pages: seq<PageId>, history: seq<Row>)
    requires Reads(s, memory, pages, history) && s'.config == s.config
    requires forall i :: StorageStays(s, s', pages, i)
    requires forall i, k :: MemorySame(s, memory, memory', pages, i, k)
    ensures Reads(s', memory', pages, history)
  {
    forall i: nat, k: nat ensures RowAt(s', memory', pages, history, i, k) {
      assert RowAt(s, memory, pages, history, i, k);
      assert StorageStays(s, s', pages, i) && MemorySame(s, memory, memory', pages, i, k);
    }
  }

  // -------------------------------------------------------------- write isolation

  /** A store only reaches pages of the written range. */
  lemma StoreMisses(s: Ledger, memory: Memory, pages: seq<PageId>, first: nat, end: nat, data: seq<Row>, o: nat,
      k: nat, firstPage: nat)
    requires end == first + |data|
    requires firstPage == PageOf(first, s.config.pageTokens)
    requires forall i: nat | firstPage <= i < |pages| && pages[i] in s.pages :: s.pages[pages[i]].storage.offset != o
    ensures Overwritten(s, memory, pages, first, end, data)(o, k) == memory(o, k)
  {
    forall i: nat ensures !Hits(s, pages, first, end, o, k, i) {
      if Hits(s, pages, first, end, o, k, i) {
        HitPage(i, k, first, s.config.pageTokens);
      }
    }
  }

  lemma HitPage(i: nat, k: nat, first: nat, pt: nat)
    requires pt > 0 && k < pt && first <= i * pt + k
    ensures PageOf(first, pt) <= i
  {
    var q := PageOf(first, pt);
    PageOfIff(first, q, pt);
    if i < q {
      MulLe(i + 1, q, pt);
      Distribute(i, pt);
    }
  }

  /** A row of the written range holds its new value. */
  lemma StoreHits(s: Ledger, memory: Memory, pages: seq<PageId>, tokens: nat, first: nat, end: nat, data: seq<Row>,
      i: nat, k: nat, outside: set<Allocation>)
    requires end == first + |data|
    requires PoolOk(s) && Owned(s, outside) && Table(s, pages, tokens) && i < |pages| && k < s.config.pageTokens
    requires pages[i] in s.pages && first <= FirstToken(i, s.config.pageTokens) + k < end
    ensures Overwritten(s, memory, pages, first, end, data)(s.pages[pages[i]].storage.offset, k)
            == data[FirstToken(i, s.config.pageTokens) + k - first]
  {
    var o := s.pages[pages[i]].storage.offset;
    assert Hits(s, pages, first, end, o, k, i);
    var j := Entry(s, pages, first, end, o, k);
    if pages[j] != pages[i] { OffsetsApart(s, pages[i], pages[j], outside); }
    TableDistinct(s, pages, tokens, i, j);
  }

  /** A row below the written range is left alone by the store. */
  lemma StoreBelow(s: Ledger, memory: Memory, pages: seq<PageId>, tokens: nat, first: nat, end: nat, data: seq<Row>,
      i: nat, k: nat, outside: set<Allocation>)
    requires end == first + |data|
    requires PoolOk(s) && Owned(s, outside) && Table(s, pages, tokens) && i < |pages| && k < s.config.pageTokens
    requires pages[i] in s.pages && FirstToken(i, s.config.pageTokens) + k < first
    ensures Overwritten(s, memory, pages, first, end, data)(s.pages[pages[i]].storage.offset, k)
            == memory(s.pages[pages[i]].storage.offset, k)
  {
    var o := s.pages[pages[i]].storage.offset;
    forall j: nat ensures !Hits(s, pages, first, end, o, k, j) {
      if Hits(s, pages, first, end, o, k, j) {
        if pages[j] != pages[i] { OffsetsApart(s, pages[i], pages[j], outside); }
        TableDistinct(s, pages, tokens, i, j);
      }
    }
  }

  // ------------------------------------------------------------------- the writer

  ghost predicate WriteCase(s: Ledger, s': Ledger, e: ExecutionId, first: nat, end: nat, plan: WritePlan,
      outside: set<Allocation>) {
    && Inv(s, outside, 0) && Inv(s', outside, 0) && e in s.executions
    && first == s.executions[e].processed && first < end <= s.executions[e].limit
    && WriteEffect(s, s', e, end, plan)
  }

  /** A written table: the old entries in place, except that a shared partial tail is copied. */
  lemma TableAfter(s: Ledger, s': Ledger, e: ExecutionId, plan: WritePlan, i: nat)
    requires e in s.executions && e in s'.executions && Touched(s, s', e, plan) && i < |s.executions[e].pages|
    ensures i < |s'.executions[e].pages|
    ensures TailCopy(s, s.executions[e]) && i == |s.executions[e].pages| - 1 ==>
              plan.copies == [(s.executions[e].pages[i], s'.executions[e].pages[i])]
    ensures !(TailCopy(s, s.executions[e]) && i == |s.executions[e].pages| - 1) ==>
              s'.executions[e].pages[i] == s.executions[e].pages[i]
  {
  }

  /** The planned copies leave the old pages alone. */
  lemma CopySpares(s: Ledger, s': Ledger, e: ExecutionId, memory: Memory, plan: WritePlan, p: PageId, k: nat,
      outside: set<Allocation>)
    requires PoolOk(s') && Owned(s', outside) && p in s.pages && StorageKept(s, s', p)
    requires e in s.executions && e in s'.executions && Touched(s, s', e, plan)
    ensures CopyAll(s, s', memory, plan.copies)(s.pages[p].storage.offset, k) == memory(s.pages[p].storage.offset, k)
  {
    if TailCopy(s, s.executions[e]) {
      var (from, copy) := plan.copies[0];
      assert plan.copies == [(from, copy)];
      if from in s.pages && copy in s'.pages {
        OffsetsApart(s', p, copy, outside);
        CopyElsewhere(s, s', memory, from, copy, s.pages[p].storage.offset, k);
      }
    }
  }

  lemma CopyElsewhere(s: Ledger, s': Ledger, memory: Memory, from: PageId, to: PageId, o: nat, k: nat)
    requires from in s.pages && to in s'.pages && s'.pages[to].storage.offset != o
    ensures CopyAll(s, s', memory, [(from, to)])(o, k) == memory(o, k)
  {
    CopyOne(s, s', memory, from, to);
  }

  lemma CopyOne(s: Ledger, s': Ledger, memory: Memory, from: PageId, to: PageId)
    requires from in s.pages && to in s'.pages
    ensures CopyAll(s, s', memory, [(from, to)])
      == Copied(memory, s.pages[from].storage.offset, s'.pages[to].storage.offset)
  {
    var copies := [(from, to)];
    assert copies[..|copies| - 1] == [] && copies[|copies| - 1] == (from, to);
    assert CopyAll(s, s', memory, []) == memory;
  }

  lemma CopyFills(s: Ledger, s': Ledger, memory: Memory, from: PageId, to: PageId, k: nat)
    requires from in s.pages && to in s'.pages
    ensures CopyAll(s, s', memory, [(from, to)])(s'.pages[to].storage.offset, k)
      == memory(s.pages[from].storage.offset, k)
  {
    CopyOne(s, s', memory, from, to);
  }

  /** Where row `(i, k)` of the old history is found once the copies are made. */
  lemma CopyKeepsHistory(s: Ledger, s': Ledger, e: ExecutionId, memory: Memory, history: seq<Row>, plan: WritePlan,
      i: nat, k: nat, outside: set<Allocation>)
    requires PoolOk(s') && Owned(s', outside) && e in s.executions && e in s'.executions && Touched(s, s', e, plan)
    requires forall p :: StorageKept(s, s', p)
    requires RowAt(s, memory, s.executions[e].pages, history, i, k)
    requires i < |s.executions[e].pages| && k < s.config.pageTokens
      && FirstToken(i, s.config.pageTokens) + k < |history|
    requires i < |s'.executions[e].pages| && s'.executions[e].pages[i] in s'.pages
    ensures CopyAll(s, s', memory, plan.copies)(s'.pages[s'.executions[e].pages[i]].storage.offset, k)
            == history[FirstToken(i, s.config.pageTokens) + k]
  {
    var p := s.executions[e].pages[i];
    assert StorageKept(s, s', p);
    TableAfter(s, s', e, plan, i);
    if TailCopy(s, s.executions[e]) && i == |s.executions[e].pages| - 1 {
      CopyFills(s, s', memory, p, s'.executions[e].pages[i], k);
    } else {
      CopySpares(s, s', e, memory, plan, p, k, outside);
    }
  }

  /** The writer reads its old history followed by the new rows. */
  lemma WriterReads(s: Ledger, s': Ledger, e: ExecutionId, memory: Memory, history: seq<Row>, first: nat, end: nat,
      data: seq<Row>, plan: WritePlan, outside: set<Allocation>)
    requires WriteCase(s, s', e, first, end, plan, outside) && first == |history| && end == first + |data|
    requires Reads(s, memory, s.executions[e].pages, history)
    ensures Reads(s', AfterWrite(s, s', e, memory, first, end, data, plan), s'.executions[e].pages, history + data)
  {
    var pages := s'.executions[e].pages;
    var memory' := AfterWrite(s, s', e, memory, first, end, data, plan);
    var pt := s.config.pageTokens;
    forall i: nat, k: nat ensures RowAt(s', memory', pages, history + data, i, k) {
      if i < |pages| && k < pt && FirstToken(i, pt) + k < |history + data| {
        assert RowAt(s, memory, s.executions[e].pages, history, i, k);
        WriterRow(s, s', e, memory, history, first, end, data, plan, i, k, outside);
      }
    }
  }

  /** One row of the writer: a new one from the data, an old one through the copies. */
  lemma WriterRow(s: Ledger, s': Ledger, e: ExecutionId, memory: Memory, history: seq<Row>, first: nat, end: nat,
      data: seq<Row>, plan: WritePlan, i: nat, k: nat, outside: set<Allocation>)
    requires WriteCase(s, s', e, first, end, plan, outside) && first == |history| && end == first + |data|
    requires i < |s'.executions[e].pages| && k < s.config.pageTokens
    requires FirstToken(i, s.config.pageTokens) + k < |history + data|
    requires RowAt(s, memory, s.executions[e].pages, history, i, k)
    ensures RowAt(s', AfterWrite(s, s', e, memory, first, end, data, plan), s'.executions[e].pages, history + data, i,
      k)
  {
    var memory' := AfterWrite(s, s', e, memory, first, end, data, plan);
    var t := FirstToken(i, s.config.pageTokens) + k;
    if first <= t {
      WriterNewRow(s, s', e, memory, memory', history, end, data, plan, i, k, t, outside);
    } else {
      WriterOldRow(s, s', e, memory, memory', history, end, data, plan, i, k, t, outside);
    }
  }

  /** The memory holds `row` at place `k` of page `i`. */
  predicate Holds(s: Ledger, memory: Memory, pages: seq<PageId>, i: nat, k: nat, row: Row) {
    i < |pages| && pages[i] in s.pages && memory(s.pages[pages[i]].storage.offset, k) == row
  }

  /** A row of a grown history is an old row or a new one. */
  lemma RowJoins(s: Ledger, memory: Memory, pages: seq<PageId>, history: seq<Row>, data: seq<Row>, i: nat, k: nat,
      t: nat, row: Row)
    requires k < s.config.pageTokens && t == FirstToken(i, s.config.pageTokens) + k && t < |history| + |data|
    requires row == if t < |history| then history[t] else data[t - |history|]
    requires Holds(s, memory, pages, i, k, row)
    ensures RowAt(s, memory, pages, history + data, i, k)
  {
  }

  lemma WriterNewRow(s: Ledger, s': Ledger, e: ExecutionId, memory: Memory, memory': Memory, history: seq<Row>,
      end: nat, data: seq<Row>, plan: WritePlan, i: nat, k: nat, t: nat, outside: set<Allocation>)
    requires WriteCase(s, s', e, |history|, end, plan, outside) && end == |history| + |data|
    requires i < |s'.executions[e].pages| && k < s.config.pageTokens
    requires t == FirstToken(i, s.config.pageTokens) + k && |history| <= t < end
    requires memory' == AfterWrite(s, s', e, memory, |history|, end, data, plan)
    ensures RowAt(s', memory', s'.executions[e].pages, history + data, i, k)
  {
    var pages, copied := s'.executions[e].pages, CopyAll(s, s', memory, plan.copies);
    assert ExecutionShape(s', e, 0);
    assert PageAt(s', pages, s'.executions[e].processed, i);
    StoreHolds(s', copied, memory', pages, history, end, data, i, k, t, outside);
  }

  lemma WriterOldRow(s: Ledger, s': Ledger, e: ExecutionId, memory: Memory, memory': Memory, history: seq<Row>,
      end: nat, data: seq<Row>, plan: WritePlan, i: nat, k: nat, t: nat, outside: set<Allocation>)
    requires WriteCase(s, s', e, |history|, end, plan, outside) && end == |history| + |data|
    requires i < |s'.executions[e].pages| && k < s.config.pageTokens
    requires t == FirstToken(i, s.config.pageTokens) + k && t < |history|
    requires memory' == AfterWrite(s, s', e, memory, |history|, end, data, plan)
    requires RowAt(s, memory, s.executions[e].pages, history, i, k)
    ensures RowAt(s', memory', s'.executions[e].pages, history + data, i, k)
  {
    var first := |history|;
    assert ExecutionShape(s, e, 0) && ExecutionShape(s', e, 0);
    assert PageAt(s', s'.executions[e].pages, s'.executions[e].processed, i);
    PageCountIff(first, i, s.config.pageTokens);
    var copied := CopyAll(s, s', memory, plan.copies);
    CopiesHold(s, s', e, memory, history, plan, i, k, t, outside);
    StoreSpares(s', copied, memory', s'.executions[e].pages, first, end, data, i, k, history[t], outside);
    RowJoins(s', memory', s'.executions[e].pages, history, data, i, k, t, history[t]);
  }

  lemma CopiesHold(s: Ledger, s': Ledger, e: ExecutionId, memory: Memory, history: seq<Row>, plan: WritePlan,
      i: nat, k: nat, t: nat, outside: set<Allocation>)
    requires PoolOk(s') && Owned(s', outside) && e in s.executions && e in s'.executions && Touched(s, s', e, plan)
    requires (forall p :: StorageKept(s, s', p)) && RowAt(s, memory, s.executions[e].pages, history, i, k)
    requires i < |s.executions[e].pages| && k < s.config.pageTokens
    requires t == FirstToken(i, s.config.pageTokens) + k && t < |history|
    requires i < |s'.executions[e].pages| && s'.executions[e].pages[i] in s'.pages
    ensures Holds(s', CopyAll(s, s', memory, plan.copies), s'.executions[e].pages, i, k, history[t])
  {
    CopyKeepsHistory(s, s', e, memory, history, plan, i, k, outside);
  }

  lemma StoreHolds(s: Ledger, copied: Memory, stored: Memory, pages: seq<PageId>, history: seq<Row>, end: nat,
      data: seq<Row>, i: nat, k: nat, t: nat, outside: set<Allocation>)
    requires end == |history| + |data| && stored == Overwritten(s, copied, pages, |history|, end, data)
    requires PoolOk(s) && Owned(s, outside) && Table(s, pages, end) && i < |pages| && k < s.config.pageTokens
    requires pages[i] in s.pages && t == FirstToken(i, s.config.pageTokens) + k && |history| <= t < end
    ensures RowAt(s, stored, pages, history + data, i, k)
  {
    StoreHits(s, copied, pages, end, |history|, end, data, i, k, outside);
    RowJoins(s, stored, pages, history, data, i, k, t, data[t - |history|]);
  }

  lemma StoreSpares(s: Ledger, copied: Memory, stored: Memory, pages: seq<PageId>, first: nat, end: nat,
      data: seq<Row>, i: nat, k: nat, row: Row, outside: set<Allocation>)
    requires end == first + |data| && stored == Overwritten(s, copied, pages, first, end, data)
    requires PoolOk(s) && Owned(s, outside) && Table(s, pages, end) && k < s.config.pageTokens
    requires Holds(s, copied, pages, i, k, row) && FirstToken(i, s.config.pageTokens) + k < first
    ensures Holds(s, stored, pages, i, k, row)
  {
    StoreBelow(s, copied, pages, end, first, end, data, i, k, outside);
  }

  // ---------------------------------------------------------------- everyone else

  predicate HeldElsewhere(s: Ledger, e: ExecutionId, p: PageId) {
    (exists k :: k in s.executions && k != e && p in s.executions[k].pages)
    || (exists c :: c in s.checkpoints && p in s.checkpoints[c].pages)
  }

  /** A page of another holder is none of the pages a write touches. */
  lemma Untouched(s': Ledger, e: ExecutionId, firstPage: nat, p: PageId, outside: set<Allocation>)
    requires Inv(s', outside, 0) && e in s'.executions && PrivateFrom(s', e, firstPage)
    requires HeldElsewhere(s', e, p) && p in s'.pages
    ensures forall j: nat | firstPage <= j < |s'.executions[e].pages| ::
              s'.executions[e].pages[j] in s'.pages
              && s'.pages[s'.executions[e].pages[j]].storage.offset != s'.pages[p].storage.offset
  {
    forall j: nat | firstPage <= j < |s'.executions[e].pages|
      ensures s'.executions[e].pages[j] in s'.pages
              && s'.pages[s'.executions[e].pages[j]].storage.offset != s'.pages[p].storage.offset
    {
      var q := s'.executions[e].pages[j];
      assert PrivatePage(s', s'.executions[e].pages, firstPage, j);
      PrivateElsewhere(s', e, q, outside);
      OffsetsApart(s', p, q, outside);
    }
  }

  lemma MemoryElsewhere(s: Ledger, s': Ledger, e: ExecutionId, memory: Memory, first: nat, end: nat, data: seq<Row>,
      plan: WritePlan, p: PageId, k: nat, outside: set<Allocation>)
    requires WriteCase(s, s', e, first, end, plan, outside) && end == first + |data|
    requires HeldElsewhere(s', e, p) && p in s.pages
    ensures p in s'.pages && s'.pages[p].storage == s.pages[p].storage
    ensures AfterWrite(s, s', e, memory, first, end, data, plan)(s.pages[p].storage.offset, k)
      == memory(s.pages[p].storage.offset, k)
  {
    assert StorageKept(s, s', p);
    var firstPage, copied := PageOf(first, s.config.pageTokens), CopyAll(s, s', memory, plan.copies);
    Untouched(s', e, firstPage, p, outside);
    StoreMisses(s', copied, s'.executions[e].pages, first, end, data, s.pages[p].storage.offset, k, firstPage);
    CopySpares(s, s', e, memory, plan, p, k, outside);
  }

  /** A write is invisible to every other holder. */
  lemma OthersRead(s: Ledger, s': Ledger, e: ExecutionId, memory: Memory, first: nat, end: nat, data: seq<Row>,
      plan: WritePlan, pages: seq<PageId>, history: seq<Row>, outside: set<Allocation>)
    requires WriteCase(s, s', e, first, end, plan, outside) && end == first + |data|
    requires Reads(s, memory, pages, history)
    requires (exists k :: k in s'.executions && k != e && s'.executions[k].pages == pages)
             || (exists c :: c in s'.checkpoints && s'.checkpoints[c].pages == pages)
    ensures Reads(s', AfterWrite(s, s', e, memory, first, end, data, plan), pages, history)
  {
    var memory' := AfterWrite(s, s', e, memory, first, end, data, plan);
    forall i: nat, k: nat ensures RowAt(s', memory', pages, history, i, k) {
      assert RowAt(s, memory, pages, history, i, k);
      if i < |pages| {
        OtherHolds(s', e, pages, pages[i]);
        OtherRow(s, s', e, memory, first, end, data, plan, pages, history, i, k, outside);
      }
    }
  }

  lemma OtherRow(s: Ledger, s': Ledger, e: ExecutionId, memory: Memory, first: nat, end: nat, data: seq<Row>,
      plan: WritePlan, pages: seq<PageId>, history: seq<Row>, i: nat, k: nat, outside: set<Allocation>)
    requires WriteCase(s, s', e, first, end, plan, outside) && end == first + |data|
    requires RowAt(s, memory, pages, history, i, k)
    requires i < |pages| && HeldElsewhere(s', e, pages[i])
    ensures RowAt(s', AfterWrite(s, s', e, memory, first, end, data, plan), pages, history, i, k)
  {
    if pages[i] in s.pages { MemoryElsewhere(s, s', e, memory, first, end, data, plan, pages[i], k, outside); }
  }

  lemma OtherHolds(s: Ledger, e: ExecutionId, pages: seq<PageId>, p: PageId)
    requires p in pages
    requires (exists k :: k in s.executions && k != e && s.executions[k].pages == pages)
             || (exists c :: c in s.checkpoints && s.checkpoints[c].pages == pages)
    ensures HeldElsewhere(s, e, p)
  {
  }
}
