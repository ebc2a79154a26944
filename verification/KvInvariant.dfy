/** The ledger invariant: sound books, page tables that cover exactly their tokens, and room
    for everything promised to admitted executions. */
module KvInvariant {
  import opened FreeRanges
  import opened BytePools
  import opened Totals
  import opened PageMath
  import opened KvLedger
  import opened KvBooks
  import opened KvRecords

  // ---------------------------------------------------------------------- shape

  /** Entry `i` of a page table names a page for tokens `i * pt ..` that is filled exactly as
      far as a history of `tokens` tokens reaches. */
  predicate PageAt(s: Ledger, pages: seq<PageId>, tokens: nat, i: nat) {
    i < |pages| ==>
      && pages[i] in s.pages
      && s.pages[pages[i]].firstToken == i * s.config.pageTokens
      && s.pages[pages[i]].validTokens == Filled(tokens, i, s.config.pageTokens)
  }

  ghost predicate Table(s: Ledger, pages: seq<PageId>, tokens: nat) {
    forall i: nat :: PageAt(s, pages, tokens, i)
  }

  /** Pages past the recorded length, present only while a write is under way, are private. */
  predicate PrivateAt(s: Ledger, x: Execution, i: nat) {
    PageCount(x.processed, s.config.pageTokens) <= i < |x.pages| ==>
      x.pages[i] in s.pages && s.pages[x.pages[i]].references == 1
  }

  ghost predicate ExecutionShape(s: Ledger, k: ExecutionId, growing: ExecutionId) {
    k in s.executions ==>
    var x, pt := s.executions[k], s.config.pageTokens;
    && 0 < x.limit <= s.config.maxContext && x.processed <= x.limit
    && Table(s, x.pages, x.processed)
    && (if k == growing
        then PageCount(x.processed, pt) <= |x.pages| <= PageCount(x.limit, pt)
             && (forall i: nat :: PrivateAt(s, x, i))
        else |x.pages| == PageCount(x.processed, pt))
    && x.ring.bytes == s.config.ringBytes && x.table.bytes == s.config.tableBytes
    && (x.capture.Capture? ==>
          x.processed > 0 && x.capture.snapshot.bytes == s.config.SnapshotBytes(x.processed)
          && x.capture.hidden.bytes == s.config.hiddenBytes)
    && (x.source != 0 ==> x.source in s.checkpoints)
  }

  function Borrows(c: CheckpointId): Execution -> nat { (x: Execution) => if x.source == c then 1 else 0 }

  ghost predicate CheckpointShape(s: Ledger, c: CheckpointId) {
    c in s.checkpoints ==>
    var x := s.checkpoints[c];
    && 0 < x.processed <= s.config.maxContext
    && Table(s, x.pages, x.processed)
    && |x.pages| == PageCount(x.processed, s.config.pageTokens)
    && x.localTokens == s.config.SnapshotTokens(x.processed)
    && x.localStart + x.localTokens == x.processed
    && x.snapshot.bytes == s.config.SnapshotBytes(x.processed)
    && x.hidden.bytes == s.config.hiddenBytes
    && x.borrowers == Sum(s.executions, Borrows(c))
  }

  predicate PageShape(s: Ledger, p: PageId) {
    p in s.pages ==> s.pages[p].storage.bytes == s.config.pageBytes
  }

  ghost predicate Shape(s: Ledger, growing: ExecutionId) {
    && (forall k :: ExecutionShape(s, k, growing))
    && (forall c :: CheckpointShape(s, c))
    && (forall p :: PageShape(s, p))
  }

  // ----------------------------------------------------------------------- room

  function Fits(s: Ledger): nat { FitCount(s.pool.free, s.config.pageBytes, ALIGNMENT) }

  /** The free ranges and the index still hold everything promised. */
  ghost predicate HasRoom(s: Ledger) {
    && Reserved(s) <= Fits(s)
    && s.indexUsed + Reserved(s) * PAGE_INFO_BYTES <= s.config.indexBytes
  }

  /** `outside` are the allocations made directly for the caller. */
  ghost predicate Inv(s: Ledger, outside: set<Allocation>, growing: ExecutionId) {
    PoolOk(s) && Books(s, multiset{}, outside, 0) && Shape(s, growing) && HasRoom(s)
  }

  lemma AlignmentOk()
    ensures PowerOfTwo(ALIGNMENT)
  {
    assert PowerOfTwo(1) && PowerOfTwo(2) && PowerOfTwo(4) && PowerOfTwo(8);
    assert PowerOfTwo(16) && PowerOfTwo(32) && PowerOfTwo(64) && PowerOfTwo(128);
  }

  lemma InvInitial(config: ValidConfig)
    ensures Inv(Initial(config), {}, 0)
  {
    BooksInitial(config);
    SumZero(Initial(config).executions, Reservation(Initial(config)));
  }

  // ------------------------------------------------------------ shrinking steps

  predicate Kept(s: Ledger, s': Ledger, p: PageId) {
    p in s'.pages ==>
      && p in s.pages
      && s'.pages[p].storage == s.pages[p].storage
      && s'.pages[p].firstToken == s.pages[p].firstToken
      && s'.pages[p].validTokens == s.pages[p].validTokens
      && s'.pages[p].references <= s.pages[p].references
  }

  /** `s'` has at most the pages, references and usage of `s`, and at least its free room. */
  ghost predicate Shrinks(s: Ledger, s': Ledger) {
    && s'.config == s.config
    && s'.indexUsed <= s.indexUsed
    && Fits(s') >= Fits(s)
    && (forall p :: Kept(s, s', p))
  }

  lemma ShrinksSelf(s: Ledger)
    ensures Shrinks(s, s)
  {
    forall p ensures Kept(s, s, p) {}
  }

  lemma ShrinksTrans(s: Ledger, t: Ledger, u: Ledger)
    requires Shrinks(s, t) && Shrinks(t, u)
    ensures Shrinks(s, u)
  {
    forall p ensures Kept(s, u, p) { assert Kept(s, t, p) && Kept(t, u, p); }
  }

  lemma ReleaseFits(s: Ledger, x: Allocation)
    requires PoolOk(s) && x in s.pool.live
    ensures Fits(s.(pool := Released(s.pool, x))) >= Fits(s)
  {
    ReleaseWellFormed(s.pool, x);
    assert LiveAt(s.pool, x);
    GiveFits(s.pool.free, x.Span(), s.config.pageBytes, ALIGNMENT, s.pool.capacity);
  }

  lemma FreeShrinks(s: Ledger, x: Allocation)
    requires PoolOk(s) && x in s.pool.live
    ensures Shrinks(s, s.(pool := Released(s.pool, x)))
  {
    ReleaseFits(s, x);
  }

  lemma ReleasePageShrinks(s: Ledger, p: PageId, debt: multiset<PageId>, loose: set<Allocation>, charge: nat)
    requires PoolOk(s) && Books(s, debt, loose, charge) && p in debt
    ensures Shrinks(s, ReleasePage(s, p))
  {
    assert RefAt(s, debt, p);
    if s.pages[p].references == 1 {
      assert OwnerOk(s, loose, PageStorage(p));
      ReleaseFits(s, s.pages[p].storage);
    }
  }

  lemma {:induction false} ReleaseAllShrinks(s: Ledger, ids: seq<PageId>, debt: multiset<PageId>,
      loose: set<Allocation>, charge: nat)
    requires PoolOk(s) && Books(s, debt, loose, charge) && multiset(ids) <= debt
    ensures Shrinks(s, ReleaseAll(s, ids))
    decreases |ids|
  {
    if ids != [] {
      assert ids == [ids[0]] + ids[1..];
      assert multiset(ids) == multiset{ids[0]} + multiset(ids[1..]);
      assert ids[0] in debt;
      ReleasePageShrinks(s, ids[0], debt, loose, charge);
      BooksReleasePage(s, ids[0], debt, loose, charge);
      ReleaseAllShrinks(ReleasePage(s, ids[0]), ids[1..], debt - multiset{ids[0]}, loose, charge);
      ShrinksTrans(s, ReleasePage(s, ids[0]), ReleaseAll(s, ids));
    }
  }

  /** Records of `s'` are among those of `s`, up to captures, borrowers and pins. */
  predicate SameWork(x: Execution, x': Execution) {
    && x'.processed == x.processed && x'.limit == x.limit && x'.pages == x.pages
    && x'.ring == x.ring && x'.table == x.table && x'.source == x.source
    && (x'.capture == x.capture || x'.capture.NoCapture?)
  }

  predicate ExecutionKept(s: Ledger, s': Ledger, k: ExecutionId) {
    k in s'.executions ==> k in s.executions && SameWork(s.executions[k], s'.executions[k])
  }

  predicate SameState(x: Checkpoint, x': Checkpoint) {
    && x'.processed == x.processed && x'.localStart == x.localStart && x'.localTokens == x.localTokens
    && x'.pages == x.pages && x'.snapshot == x.snapshot && x'.hidden == x.hidden
  }

  /** Each page of a record is referenced, hence present. */
  lemma HeldPresent(s: Ledger, k: ExecutionId, i: nat, loose: set<Allocation>, charge: nat)
    requires Books(s, multiset{}, loose, charge) && k in s.executions && i < |s.executions[k].pages|
    ensures s.executions[k].pages[i] in s.pages
  {
    var p := s.executions[k].pages[i];
    assert RefAt(s, multiset{}, p);
    SumBounds(s.executions, UsesOf(p), k);
    assert p in multiset(s.executions[k].pages);
  }

  lemma KeptPresent(s: Ledger, c: CheckpointId, i: nat, loose: set<Allocation>, charge: nat)
    requires Books(s, multiset{}, loose, charge) && c in s.checkpoints && i < |s.checkpoints[c].pages|
    ensures s.checkpoints[c].pages[i] in s.pages
  {
    var p := s.checkpoints[c].pages[i];
    assert RefAt(s, multiset{}, p);
    SumBounds(s.checkpoints, HeldBy(p), c);
    assert p in multiset(s.checkpoints[c].pages);
  }

  lemma ExecutionShapeShrinks(s: Ledger, s': Ledger, k: ExecutionId, loose: set<Allocation>, charge: nat)
    requires Shrinks(s, s') && Books(s', multiset{}, loose, charge)
    requires k in s'.executions && ExecutionKept(s, s', k) && ExecutionShape(s, k, 0) && SourceOk(s', k)
    ensures ExecutionShape(s', k, 0)
  {
    var x := s'.executions[k];
    forall i: nat ensures PageAt(s', x.pages, x.processed, i) {
      assert PageAt(s, x.pages, x.processed, i);
      if i < |x.pages| {
        HeldPresent(s', k, i, loose, charge);
        assert Kept(s, s', x.pages[i]);
      }
    }
  }

  lemma CheckpointShapeShrinks(s: Ledger, s': Ledger, c: CheckpointId, loose: set<Allocation>, charge: nat)
    requires Shrinks(s, s') && Books(s', multiset{}, loose, charge)
    requires c in s'.checkpoints && c in s.checkpoints && CheckpointShape(s, c)
    requires SameState(s.checkpoints[c], s'.checkpoints[c])
    requires BorrowersOk(s', c)
    ensures CheckpointShape(s', c)
  {
    var x := s'.checkpoints[c];
    forall i: nat ensures PageAt(s', x.pages, x.processed, i) {
      assert PageAt(s, x.pages, x.processed, i);
      if i < |x.pages| {
        KeptPresent(s', c, i, loose, charge);
        assert Kept(s, s', x.pages[i]);
      }
    }
  }

  predicate CheckpointKept(s: Ledger, s': Ledger, c: CheckpointId) {
    c in s'.checkpoints ==> c in s.checkpoints && SameState(s.checkpoints[c], s'.checkpoints[c])
  }

  predicate SourceOk(s: Ledger, k: ExecutionId) {
    k in s.executions && s.executions[k].source != 0 ==> s.executions[k].source in s.checkpoints
  }

  ghost predicate BorrowersOk(s: Ledger, c: CheckpointId) {
    c in s.checkpoints ==> s.checkpoints[c].borrowers == Sum(s.executions, Borrows(c))
  }

  lemma ShapeShrinks(s: Ledger, s': Ledger, loose: set<Allocation>)
    requires Shape(s, 0) && Shrinks(s, s') && Books(s', multiset{}, loose, 0)
    requires forall k :: ExecutionKept(s, s', k)
    requires forall k :: SourceOk(s', k)
    requires forall c :: CheckpointKept(s, s', c)
    requires forall c :: BorrowersOk(s', c)
    ensures Shape(s', 0)
  {
    forall k ensures ExecutionShape(s', k, 0) {
      assert ExecutionKept(s, s', k) && ExecutionShape(s, k, 0) && SourceOk(s', k);
      if k in s'.executions { ExecutionShapeShrinks(s, s', k, loose, 0); }
    }
    forall c ensures CheckpointShape(s', c) {
      assert CheckpointKept(s, s', c) && CheckpointShape(s, c) && BorrowersOk(s', c);
      if c in s'.checkpoints { CheckpointShapeShrinks(s, s', c, loose, 0); }
    }
    forall p ensures PageShape(s', p) {
      assert Kept(s, s', p) && PageShape(s, p);
    }
  }

  /** Dropping references never raises a reservation. */
  lemma ReservedOfShrinks(s: Ledger, s': Ledger, x: Execution, x': Execution)
    requires Shrinks(s, s') && SameWork(x, x')
    ensures ReservedOf(s', x') <= ReservedOf(s, x)
  {
    if x.pages != [] { assert Kept(s, s', x.pages[|x.pages| - 1]); }
  }

  lemma ReservedShrinks(s: Ledger, s': Ledger)
    requires Shrinks(s, s') && (forall k :: ExecutionKept(s, s', k))
    ensures Reserved(s') <= Reserved(s)
  {
    forall k | k in s'.executions
      ensures k in s.executions && ReservedOf(s', s'.executions[k]) <= ReservedOf(s, s.executions[k])
    {
      assert ExecutionKept(s, s', k);
      ReservedOfShrinks(s, s', s.executions[k], s'.executions[k]);
    }
    SumMonotone(s'.executions, Reservation(s'), s.executions, Reservation(s));
  }

  lemma RoomShrinks(s: Ledger, s': Ledger)
    requires HasRoom(s) && Shrinks(s, s') && (forall k :: ExecutionKept(s, s', k))
    ensures HasRoom(s')
  {
    ReservedShrinks(s, s');
  }

  lemma InvShrinks(s: Ledger, s': Ledger, outside: set<Allocation>)
    requires Inv(s, outside, 0) && Shrinks(s, s') && PoolOk(s') && Books(s', multiset{}, outside, 0)
    requires forall k :: ExecutionKept(s, s', k)
    requires forall k :: SourceOk(s', k)
    requires forall c :: CheckpointKept(s, s', c)
    requires forall c :: BorrowersOk(s', c)
    ensures Inv(s', outside, 0)
  {
    ShapeShrinks(s, s', outside);
    RoomShrinks(s, s');
  }
}
