/** Operations that make new promises: admission, forks, resizes and captures. Each checks
    room for the new promise on top of all earlier ones, and keeps the ledger invariant. */
module KvAdmission {
  import opened FreeRanges
  import opened BytePools
  import opened Totals
  import opened PageMath
  import opened KvLedger
  import opened KvBooks
  import opened KvRecords
  import opened KvInvariant
  import opened KvReclaim

  // ------------------------------------------------------------------ plan sound

  /** When a plan of two private buffers and `n` pages fits, both buffers are granted in that
      order and `n` pages still fit afterwards. */
  lemma PlanFits(s: Ledger, x: nat, y: nat, n: nat)
    requires PoolOk(s) && TakeAll(s.pool.free, [x, y] + Repeat(s.config.pageBytes, n), ALIGNMENT).AllFit?
    ensures Attempted(s.pool, x, ALIGNMENT).Granted?
    ensures var pool1 := Attempted(s.pool, x, ALIGNMENT).pool;
      && Attempted(pool1, y, ALIGNMENT).Granted?
      && n <= FitCount(Attempted(pool1, y, ALIGNMENT).pool.free, s.config.pageBytes, ALIGNMENT)
  {
    var tail := Repeat(s.config.pageBytes, n);
    var plan := [x, y] + tail;
    assert plan[0] == x && plan[1..] == [y] + tail;
    assert Take(s.pool.free, x, ALIGNMENT).Placed?;
    AllocateWellFormed(s.pool, x, ALIGNMENT);
    var pool1 := Attempted(s.pool, x, ALIGNMENT).pool;
    assert ([y] + tail)[0] == y && ([y] + tail)[1..] == tail;
    AllocateWellFormed(pool1, y, ALIGNMENT);
    var pool2 := Attempted(pool1, y, ALIGNMENT).pool;
    AlignmentOk();
    TakeAllUniform(pool2.free, n, s.config.pageBytes, ALIGNMENT, pool2.capacity);
  }

  // ------------------------------------------------------------------- expansion

  predicate PageStays(s: Ledger, s': Ledger, p: PageId) {
    p in s.pages ==>
      && p in s'.pages
      && s'.pages[p].storage == s.pages[p].storage
      && s'.pages[p].firstToken == s.pages[p].firstToken
      && s'.pages[p].validTokens == s.pages[p].validTokens
  }

  ghost predicate PagesStay(s: Ledger, s': Ledger) {
    s'.config == s.config && forall p :: PageStays(s, s', p)
  }

  lemma TableStays(s: Ledger, s': Ledger, pages: seq<PageId>, tokens: nat)
    requires PagesStay(s, s') && Table(s, pages, tokens)
    ensures Table(s', pages, tokens)
  {
    forall i: nat ensures PageAt(s', pages, tokens, i) {
      assert PageAt(s, pages, tokens, i);
      if i < |pages| { assert PageStays(s, s', pages[i]); }
    }
  }

  predicate ExecutionStays(s: Ledger, s': Ledger, k: ExecutionId) {
    k in s'.executions ==> k in s.executions && s'.executions[k] == s.executions[k]
  }

  lemma ExecutionShapeStays(s: Ledger, s': Ledger, k: ExecutionId)
    requires PagesStay(s, s') && ExecutionShape(s, k, 0) && ExecutionStays(s, s', k)
      && s'.checkpoints.Keys >= s.checkpoints.Keys
    requires Ids(s)
    ensures ExecutionShape(s', k, 0)
  {
    if k in s'.executions {
      TableStays(s, s', s.executions[k].pages, s.executions[k].processed);
    }
  }

  lemma CheckpointShapeStays(s: Ledger, s': Ledger, c: CheckpointId)
    requires PagesStay(s, s') && CheckpointShape(s, c) && CheckpointKept(s, s', c) && BorrowersOk(s', c)
    ensures CheckpointShape(s', c)
  {
    if c in s'.checkpoints {
      TableStays(s, s', s.checkpoints[c].pages, s.checkpoints[c].processed);
    }
  }

  lemma RetainedStays(s: Ledger, s': Ledger, ids: seq<PageId>)
    requires s'.config == s.config && s'.pages == Retained(s.pages, ids)
    ensures PagesStay(s, s')
    ensures forall p :: PageShape(s, p) ==> PageShape(s', p)
  {
    forall p ensures PageStays(s, s', p) {}
  }

  // ---------------------------------------------------------------- sharing facts

  /** A page held by two records has at least two references. */
  lemma SharedWithCheckpoint(s: Ledger, k: ExecutionId, c: CheckpointId, p: PageId, loose: set<Allocation>)
    requires Books(s, multiset{}, loose, 0) && k in s.executions && c in s.checkpoints
    requires p in s.executions[k].pages && p in s.checkpoints[c].pages
    ensures p in s.pages && s.pages[p].references > 1
  {
    assert RefAt(s, multiset{}, p);
    SumBounds(s.executions, UsesOf(p), k);
    SumBounds(s.checkpoints, HeldBy(p), c);
    assert p in multiset(s.executions[k].pages) && p in multiset(s.checkpoints[c].pages);
  }

  lemma SharedWithExecution(s: Ledger, k: ExecutionId, j: ExecutionId, p: PageId, loose: set<Allocation>)
    requires Books(s, multiset{}, loose, 0) && k in s.executions && j in s.executions && k != j
    requires p in s.executions[k].pages && p in s.executions[j].pages
    ensures p in s.pages && s.pages[p].references > 1
  {
    assert RefAt(s, multiset{}, p);
    SumTwo(s.executions, UsesOf(p), k, j);
    assert p in multiset(s.executions[k].pages) && p in multiset(s.executions[j].pages);
  }

  /** Whose tail could become shared when the pages `ids` are retained: nobody's but `donor`'s. */
  predicate TailSafe(s: Ledger, ids: seq<PageId>, k: ExecutionId) {
    k in s.executions ==>
      var x := s.executions[k];
      x.pages != [] && x.pages[|x.pages| - 1] in ids && x.pages[|x.pages| - 1] in s.pages ==>
        s.pages[x.pages[|x.pages| - 1]].references > 1
  }

  lemma TailSafeCheckpoint(s: Ledger, c: CheckpointId, k: ExecutionId, loose: set<Allocation>)
    requires Books(s, multiset{}, loose, 0) && c in s.checkpoints
    ensures TailSafe(s, s.checkpoints[c].pages, k)
  {
    if k in s.executions && s.executions[k].pages != [] {
      var x := s.executions[k];
      if x.pages[|x.pages| - 1] in s.checkpoints[c].pages {
        SharedWithCheckpoint(s, k, c, x.pages[|x.pages| - 1], loose);
      }
    }
  }

  lemma TailSafeExecution(s: Ledger, e: ExecutionId, k: ExecutionId, loose: set<Allocation>)
    requires Books(s, multiset{}, loose, 0) && e in s.executions && k != e
    ensures TailSafe(s, s.executions[e].pages, k)
  {
    if k in s.executions && s.executions[k].pages != [] {
      var x := s.executions[k];
      if x.pages[|x.pages| - 1] in s.executions[e].pages {
        SharedWithExecution(s, k, e, x.pages[|x.pages| - 1], loose);
      }
    }
  }

  /** Retaining `ids` leaves reservations alone, except that the private tail of `donor` may
      become shared. */
  lemma ReservedRetained(s: Ledger, s': Ledger, ids: seq<PageId>, donor: ExecutionId)
    requires s'.config == s.config && s'.pages == Retained(s.pages, ids)
    requires Refs(s, multiset{}) && (forall k :: k != donor ==> TailSafe(s, ids, k))
    ensures Sum(s.executions, Reservation(s')) <=
              Reserved(s) + if donor in s.executions && SourceTailCopy(s, s.executions[donor]) then 1 else 0
  {
    forall k | k in s.executions && k != donor
      ensures ReservedOf(s', s.executions[k]) <= ReservedOf(s, s.executions[k])
    {
      assert TailSafe(s, ids, k);
      TailReferenced(s, s.executions[k]);
      RetainedTail(s, s', ids, s.executions[k]);
    }
    SumAside(s.executions, Reservation(s), s.executions, Reservation(s'), donor);
    if donor in s.executions {
      TailReferenced(s, s.executions[donor]);
      RetainedTail(s, s', ids, s.executions[donor]);
    }
  }

  predicate TailAlive(s: Ledger, x: Execution) {
    x.pages != [] && x.pages[|x.pages| - 1] in s.pages ==> s.pages[x.pages[|x.pages| - 1]].references > 0
  }

  lemma TailReferenced(s: Ledger, x: Execution)
    requires Refs(s, multiset{})
    ensures TailAlive(s, x)
  {
    if x.pages != [] { assert RefAt(s, multiset{}, x.pages[|x.pages| - 1]); }
  }

  lemma RetainedTail(s: Ledger, s': Ledger, ids: seq<PageId>, x: Execution)
    requires s'.config == s.config && s'.pages == Retained(s.pages, ids) && TailAlive(s, x)
    ensures ReservedOf(s', x) <= ReservedOf(s, x) + if SourceTailCopy(s, x) then 1 else 0
    ensures x.pages != [] && x.pages[|x.pages| - 1] !in ids ==> ReservedOf(s', x) <= ReservedOf(s, x)
  {
    if x.pages != [] && x.pages[|x.pages| - 1] in s.pages {
      var q := x.pages[|x.pages| - 1];
      assert q in multiset(ids) <==> q in ids;
    }
  }

  // ------------------------------------------------------------------------ start

  predicate StartOk(s: Ledger, limit: nat, processed: nat, source: CheckpointId) {
    0 < limit <= s.config.maxContext && processed <= limit && (source != 0 ==> source in s.checkpoints)
  }

  lemma ChargeBooks(s: Ledger, n: nat, debt: multiset<PageId>, loose: set<Allocation>)
    requires Books(s, debt, loose, 0)
    ensures Books(s.(indexUsed := s.indexUsed + n), debt, loose, n)
  {
    var t := s.(indexUsed := s.indexUsed + n);
    RefsSame(s, t, debt);
    OwnedSame(s, t, loose);
  }

  function Borrowed(checkpoints: map<CheckpointId, Checkpoint>, source: CheckpointId): map<CheckpointId, Checkpoint> {
    if source in checkpoints
    then checkpoints[source := checkpoints[source].(borrowers := checkpoints[source].borrowers + 1)]
    else checkpoints
  }

  /** Two private buffers are allocated and `n` index bytes charged. */
  lemma BooksTwoBuffers(s: Ledger, x: nat, y: nat, n: nat, outside: set<Allocation>)
    requires PoolOk(s) && Books(s, multiset{}, outside, 0)
    requires Attempted(s.pool, x, ALIGNMENT).Granted?
    requires Attempted(Attempted(s.pool, x, ALIGNMENT).pool, y, ALIGNMENT).Granted?
    ensures var Granted(pool1, a) := Attempted(s.pool, x, ALIGNMENT);
      var Granted(pool2, b) := Attempted(pool1, y, ALIGNMENT);
      var t := s.(pool := pool2, indexUsed := s.indexUsed + n);
      && PoolOk(t) && Books(t, multiset{}, outside + {a, b}, n)
      && a != b && a !in outside && b !in outside && a.bytes == x && b.bytes == y
  {
    BooksAllocate(s, x, ALIGNMENT, multiset{}, outside, 0);
    var Granted(pool1, a) := Attempted(s.pool, x, ALIGNMENT);
    var s1 := s.(pool := pool1);
    BooksAllocate(s1, y, ALIGNMENT, multiset{}, outside + {a}, 0);
    var Granted(pool2, b) := Attempted(pool1, y, ALIGNMENT);
    var s2 := s1.(pool := pool2);
    assert outside + {a} + {b} == outside + {a, b};
    ChargeBooks(s2, n, multiset{}, outside + {a, b});
    assert s2.(indexUsed := s2.indexUsed + n) == s.(pool := pool2, indexUsed := s.indexUsed + n);
  }

  lemma TablePresent(s: Ledger, pages: seq<PageId>, tokens: nat)
    requires Table(s, pages, tokens)
    ensures forall p :: p in pages ==> p in s.pages
  {
    forall p | p in pages ensures p in s.pages {
      var i: nat :| i < |pages| && pages[i] == p;
      assert PageAt(s, pages, tokens, i);
    }
  }

  /** The pages of a new holder are retained. */
  lemma BooksShare(t: Ledger, pages: seq<PageId>, loose: set<Allocation>, n: nat)
    requires PoolOk(t) && Books(t, multiset{}, loose, n) && (forall p :: p in pages ==> p in t.pages)
    ensures PoolOk(t.(pages := Retained(t.pages, pages)))
    ensures Books(t.(pages := Retained(t.pages, pages)), multiset(pages), loose, n)
  {
    BooksRetain(t, pages, multiset{}, loose, n);
    assert multiset{} + multiset(pages) == multiset(pages);
  }

  lemma BooksEnrol(t: Ledger, x: Execution, outside: set<Allocation>)
    requires Books(t, multiset(x.pages), outside + {x.ring, x.table}, t.config.ExecutionBytes())
    requires x.capture.NoCapture? && x.ring != x.table && x.ring !in outside && x.table !in outside
    ensures Books(t.(executions := t.executions[t.nextExecution := x], nextExecution := t.nextExecution + 1,
                     checkpoints := Borrowed(t.checkpoints, x.source)), multiset{}, outside, 0)
  {
    assert multiset{} + multiset(x.pages) == multiset(x.pages);
    BooksNewExecution(t, x, multiset{}, outside + {x.ring, x.table}, 0);
    assert outside + {x.ring, x.table} - {x.ring, x.table} == outside;
    var u := t.(executions := t.executions[t.nextExecution := x], nextExecution := t.nextExecution + 1);
    BooksBorrow(u, x.source, outside);
  }

  /** The state after `Start`, field by field. */
  lemma StartFields(s: Ledger, limit: nat, processed: nat, pages: seq<PageId>, source: CheckpointId)
    requires Start(s, limit, processed, pages, source).Made?
    ensures Attempted(s.pool, s.config.ringBytes, ALIGNMENT).Granted?
    ensures Attempted(Attempted(s.pool, s.config.ringBytes, ALIGNMENT).pool, s.config.tableBytes, ALIGNMENT).Granted?
    ensures var Granted(pool1, ring) := Attempted(s.pool, s.config.ringBytes, ALIGNMENT);
      var Granted(pool2, table) := Attempted(pool1, s.config.tableBytes, ALIGNMENT);
      var x := Execution(processed, limit, pages, ring, table, source, NoCapture);
      Start(s, limit, processed, pages, source).value ==
        (s.(pool := pool2, indexUsed := s.indexUsed + s.config.ExecutionBytes(), pages := Retained(s.pages, pages),
            executions := s.executions[s.nextExecution := x], nextExecution := s.nextExecution + 1,
            checkpoints := Borrowed(s.checkpoints, source)), s.nextExecution)
  {
  }

  lemma StartBooks(s: Ledger, limit: nat, processed: nat, pages: seq<PageId>, source: CheckpointId,
      outside: set<Allocation>)
    requires PoolOk(s) && Books(s, multiset{}, outside, 0) && Table(s, pages, processed)
    requires Start(s, limit, processed, pages, source).Made?
    ensures var (s', id) := Start(s, limit, processed, pages, source).value;
      && PoolOk(s') && Books(s', multiset{}, outside, 0)
      && s'.executions[id].ring.bytes == s.config.ringBytes && s'.executions[id].table.bytes == s.config.tableBytes
  {
    StartFields(s, limit, processed, pages, source);
    var n := s.config.ExecutionBytes();
    BooksTwoBuffers(s, s.config.ringBytes, s.config.tableBytes, n, outside);
    var Granted(pool1, ring) := Attempted(s.pool, s.config.ringBytes, ALIGNMENT);
    var Granted(pool2, table) := Attempted(pool1, s.config.tableBytes, ALIGNMENT);
    var x := Execution(processed, limit, pages, ring, table, source, NoCapture);
    TablePresent(s, pages, processed);
    var t := s.(pool := pool2, indexUsed := s.indexUsed + n);
    StartBooksAfter(t, x, outside);
    StartIs(s, limit, processed, pages, source, pool1, pool2, t, x);
  }

  /** The state after `Start`, from the buffers on. */
  lemma StartIs(s: Ledger, limit: nat, processed: nat, pages: seq<PageId>, source: CheckpointId, pool1: Pool,
      pool2: Pool, t: Ledger, x: Execution)
    requires Attempted(s.pool, s.config.ringBytes, ALIGNMENT) == Granted(pool1, x.ring)
    requires Attempted(pool1, s.config.tableBytes, ALIGNMENT) == Granted(pool2, x.table)
    requires Start(s, limit, processed, pages, source).Made?
    requires x == Execution(processed, limit, pages, x.ring, x.table, source, NoCapture)
    requires t == s.(pool := pool2, indexUsed := s.indexUsed + s.config.ExecutionBytes())
    ensures Start(s, limit, processed, pages, source).value == (Enrolled(t, x), s.nextExecution)
  {
    StartFields(s, limit, processed, pages, source);
  }

  /** The new execution takes its place, and its pages and source are shared. */
  function Enrolled(t: Ledger, x: Execution): Ledger {
    t.(pages := Retained(t.pages, x.pages),
       executions := t.executions[t.nextExecution := x], nextExecution := t.nextExecution + 1,
       checkpoints := Borrowed(t.checkpoints, x.source))
  }

  lemma StartBooksAfter(t: Ledger, x: Execution, outside: set<Allocation>)
    requires PoolOk(t) && Books(t, multiset{}, outside + {x.ring, x.table}, t.config.ExecutionBytes())
    requires x.capture.NoCapture? && x.ring != x.table && x.ring !in outside && x.table !in outside
    requires forall p :: p in x.pages ==> p in t.pages
    ensures PoolOk(Enrolled(t, x)) && Books(Enrolled(t, x), multiset{}, outside, 0)
  {
    BooksShare(t, x.pages, outside + {x.ring, x.table}, t.config.ExecutionBytes());
    var u := t.(pages := Retained(t.pages, x.pages));
    BooksEnrol(u, x, outside);
    assert u.(executions := u.executions[u.nextExecution := x], nextExecution := u.nextExecution + 1,
              checkpoints := Borrowed(u.checkpoints, x.source))
        == Enrolled(t, x);
  }

  lemma BooksBorrow(v: Ledger, source: CheckpointId, outside: set<Allocation>)
    requires Books(v, multiset{}, outside, 0)
    ensures Books(v.(checkpoints := Borrowed(v.checkpoints, source)), multiset{}, outside, 0)
  {
    if source in v.checkpoints {
      BooksEditCheckpoint(v, source, Borrowed(v.checkpoints, source)[source], multiset{}, outside, 0);
    }
  }

  lemma StartShape(s: Ledger, s': Ledger, id: ExecutionId, x: Execution)
    requires Shape(s, 0) && Ids(s) && id == s.nextExecution
    requires s'.config == s.config && s'.pages == Retained(s.pages, x.pages)
    requires s'.executions == s.executions[id := x] && s'.checkpoints == Borrowed(s.checkpoints, x.source)
    requires StartOk(s, x.limit, x.processed, x.source) && x.capture.NoCapture?
    requires Table(s, x.pages, x.processed) && |x.pages| == PageCount(x.processed, s.config.pageTokens)
    requires x.ring.bytes == s.config.ringBytes && x.table.bytes == s.config.tableBytes
    ensures Shape(s', 0)
  {
    RetainedStays(s, s', x.pages);
    TableStays(s, s', x.pages, x.processed);
    forall k ensures ExecutionShape(s', k, 0) {
      if k != id {
        assert ExecutionShape(s, k, 0);
        ExecutionShapeStays(s, s', k);
      }
    }
    forall c ensures CheckpointShape(s', c) {
      assert CheckpointShape(s, c);
      SumPut(s.executions, Borrows(c), id, x);
      CheckpointShapeStays(s, s', c);
    }
    forall p ensures PageShape(s', p) { assert PageShape(s, p); }
  }

  lemma StartReserved(s: Ledger, s': Ledger, id: ExecutionId, x: Execution, donor: ExecutionId)
    requires id !in s.executions && s'.executions == s.executions[id := x]
    requires s'.config == s.config && s'.pages == Retained(s.pages, x.pages)
    requires Refs(s, multiset{}) && (forall k :: k != donor ==> TailSafe(s, x.pages, k))
    ensures Reserved(s') <= Reserved(s) + Growth(x.limit, |x.pages|, x.processed, s.config.pageTokens)
              + if donor in s.executions && SourceTailCopy(s, s.executions[donor]) then 1 else 0
  {
    ReservedRetained(s, s', x.pages, donor);
    SumPut(s.executions, Reservation(s'), id, x);
  }

  /** Room for a plan is room for the buffers of `Start`, and then for `n` pages. */
  lemma StartMade(s: Ledger, limit: nat, processed: nat, pages: seq<PageId>, source: CheckpointId, n: nat)
    requires PoolOk(s) && s.indexUsed + s.config.ExecutionBytes() + n * PAGE_INFO_BYTES <= s.config.indexBytes
    requires TakeAll(s.pool.free, Plan(s.config, n), ALIGNMENT).AllFit?
    ensures Start(s, limit, processed, pages, source).Made?
    ensures var s' := Start(s, limit, processed, pages, source).value.0;
      n <= Fits(s') && s'.indexUsed + n * PAGE_INFO_BYTES <= s'.config.indexBytes
  {
    PlanFits(s, s.config.ringBytes, s.config.tableBytes, n);
    StartFields(s, limit, processed, pages, source);
  }

  /** An admission whose plan fits keeps the invariant: the new execution's growth and every
      earlier promise stay covered. */
  lemma StartInv(s: Ledger, limit: nat, processed: nat, pages: seq<PageId>, source: CheckpointId, donor: ExecutionId,
      outside: set<Allocation>, n: nat)
    requires Inv(s, outside, 0) && StartOk(s, limit, processed, source)
    requires Table(s, pages, processed) && |pages| == PageCount(processed, s.config.pageTokens)
    requires forall k :: k != donor ==> TailSafe(s, pages, k)
    requires n >= Reserved(s) + Growth(limit, |pages|, processed, s.config.pageTokens)
                  + if donor in s.executions && SourceTailCopy(s, s.executions[donor]) then 1 else 0
    requires s.indexUsed + s.config.ExecutionBytes() + n * PAGE_INFO_BYTES <= s.config.indexBytes
    requires TakeAll(s.pool.free, Plan(s.config, n), ALIGNMENT).AllFit?
    ensures Start(s, limit, processed, pages, source).Made?
    ensures Inv(Start(s, limit, processed, pages, source).value.0, outside, 0)
  {
    StartMade(s, limit, processed, pages, source, n);
    StartBooks(s, limit, processed, pages, source, outside);
    StartFields(s, limit, processed, pages, source);
    var (s', id) := Start(s, limit, processed, pages, source).value;
    var x := s'.executions[id];
    assert s'.executions == s.executions[id := x] && x.limit == limit && x.processed == processed && x.pages == pages;
    assert Shape(s', 0) by { StartShape(s, s', id, x); }
    assert Reserved(s') <= n by { StartReserved(s, s', id, x, donor); }
  }

  // -------------------------------------------------------------------- evictions

  /** A checkpoint that is gone was idle and not protected; the others are untouched. */
  predicate EvictedOnly(s: Ledger, t: Ledger, protect: CheckpointId, c: CheckpointId) {
    && (c in t.checkpoints ==> c in s.checkpoints && t.checkpoints[c] == s.checkpoints[c])
    && (c in s.checkpoints && c !in t.checkpoints ==> Idle(s.checkpoints[c]) && c != protect)
  }

  lemma EvictedTrans(s: Ledger, u: Ledger, t: Ledger, protect: CheckpointId)
    requires exists c ::
      c in s.checkpoints && Idle(s.checkpoints[c]) && c != protect && u.checkpoints == s.checkpoints - {c}
    requires forall c :: EvictedOnly(u, t, protect, c)
    ensures forall c :: EvictedOnly(s, t, protect, c)
  {
    forall c ensures EvictedOnly(s, t, protect, c) { assert EvictedOnly(u, t, protect, c); }
  }

  /** Making room evicts idle checkpoints only, and ends with room or with a refusal. */
  lemma {:induction false} MakeRoomInv(s: Ledger, demand: Demand, protect: CheckpointId, select: Selector,
      outside: set<Allocation>)
    requires Inv(s, outside, 0)
    ensures var (t, verdict) := MakeRoom(s, demand, protect, select);
      && Inv(t, outside, 0) && Shrinks(s, t) && t.executions == s.executions
      && (forall c :: EvictedOnly(s, t, protect, c))
      && (verdict.Room? ==> Pressure(t, demand).Room?)
    decreases |s.checkpoints|
  {
    var pressure := Pressure(s, demand);
    if pressure.Lacks? && EvictIdle(s, protect, pressure.cause, select).Made? {
      EvictIdleInv(s, protect, pressure.cause, select, outside);
      EvictShrinks(s, protect, pressure.cause, select);
      var u := EvictIdle(s, protect, pressure.cause, select).value;
      MakeRoomInv(u, demand, protect, select, outside);
      var t := MakeRoom(s, demand, protect, select).0;
      assert MakeRoom(s, demand, protect, select) == MakeRoom(u, demand, protect, select);
      EvictedTrans(s, u, t, protect);
      ShrinksTrans(s, u, t);
    } else {
      ShrinksSelf(s);
    }
  }

  // ------------------------------------------------------------------- admission

  lemma BeginFields(s: Ledger, source: CheckpointId, limit: nat, select: Selector)
    requires BatchFits(s, source, limit) == Done(true)
    ensures source != 0 ==> source in s.checkpoints
    ensures Resumed(s, source) <= limit && 0 < limit <= s.config.maxContext
    ensures var (t, verdict) := MakeRoom(s, BeginDemand(s, source, limit), source, select);
      && (verdict.Lacks? ==> BeginBatch(s, source, limit, select) == (t, Refused(verdict.cause)))
      && (verdict.Room? ==>
            var started := Start(t, limit, Resumed(s, source), Inherited(s, source), source);
            BeginBatch(s, source, limit, select) ==
            if started.Made? then (started.value.0, Done(started.value.1)) else (t, Rejected))
  {
  }

  /** Once there is room, the new execution starts and every promise stays covered. */
  lemma BeginStarts(s: Ledger, t: Ledger, source: CheckpointId, limit: nat, outside: set<Allocation>)
    requires Inv(t, outside, 0) && Shrinks(s, t) && t.executions == s.executions
    requires EvictedOnly(s, t, source, source) && (source != 0 ==> source in s.checkpoints)
    requires Resumed(s, source) <= limit && 0 < limit <= s.config.maxContext
    requires Pressure(t, BeginDemand(s, source, limit)).Room?
    ensures Start(t, limit, Resumed(s, source), Inherited(s, source), source).Made?
    ensures Inv(Start(t, limit, Resumed(s, source), Inherited(s, source), source).value.0, outside, 0)
  {
    var resumed, held := Resumed(s, source), Inherited(s, source);
    assert CheckpointShape(t, source);
    assert source == 0 ==> Table(t, held, 0) by {
      forall i: nat ensures PageAt(t, [], 0, i) {}
    }
    forall k ensures TailSafe(t, held, k) {
      if source != 0 { TailSafeCheckpoint(t, source, k, outside); }
    }
    assert 0 !in t.executions;
    forall k ensures ExecutionKept(s, t, k) {}
    ReservedShrinks(s, t);
    StartInv(t, limit, resumed, held, source, 0, outside, BeginDemand(s, source, limit).pages);
  }

  /** Batch admission keeps the invariant, and an admission never fails after its check. */
  lemma BeginBatchInv(s: Ledger, source: CheckpointId, limit: nat, select: Selector, outside: set<Allocation>)
    requires Inv(s, outside, 0)
    ensures Inv(BeginBatch(s, source, limit, select).0, outside, 0)
    ensures BatchFits(s, source, limit) == Done(true) ==> !BeginBatch(s, source, limit, select).1.Rejected?
  {
    if BatchFits(s, source, limit) == Done(true) {
      BeginFields(s, source, limit, select);
      MakeRoomInv(s, BeginDemand(s, source, limit), source, select, outside);
      var (t, verdict) := MakeRoom(s, BeginDemand(s, source, limit), source, select);
      if verdict.Room? {
        assert EvictedOnly(s, t, source, source);
        BeginStarts(s, t, source, limit, outside);
      }
    }
  }

  /** The outcomes of a fork whose arguments are sound. */
  lemma ForkFields(s: Ledger, source: ExecutionId, limit: nat, select: Selector)
    requires LimitOk(s, source, limit) && MakeRoom(s, ForkOf(source, limit), 0, select).0.executions == s.executions
    ensures source in s.executions
    ensures var (t, verdict) := MakeRoom(s, ForkOf(source, limit), 0, select);
      var started := Start(t, limit, s.executions[source].processed, s.executions[source].pages, 0);
      ForkBatch(s, source, limit, select)
      == if verdict.Lacks? then (t, Refused(verdict.cause))
         else if started.Made? then (started.value.0, Done(started.value.1)) else (t, Rejected)
  {
  }

  /** Forking shares pages and may turn the source's tail shared; both costs are promised. */
  lemma ForkBatchInv(s: Ledger, source: ExecutionId, limit: nat, select: Selector, outside: set<Allocation>)
    requires Inv(s, outside, 0)
    ensures Inv(ForkBatch(s, source, limit, select).0, outside, 0)
    ensures LimitOk(s, source, limit) ==> !ForkBatch(s, source, limit, select).1.Rejected?
  {
    if LimitOk(s, source, limit) {
      MakeRoomInv(s, ForkOf(source, limit), 0, select, outside);
      ForkFields(s, source, limit, select);
      var (t, verdict) := MakeRoom(s, ForkOf(source, limit), 0, select);
      if verdict.Room? { ForkStarts(t, source, limit, outside); }
    }
  }

  /** In a ledger with room for a fork the fork starts. */
  lemma ForkStarts(t: Ledger, source: ExecutionId, limit: nat, outside: set<Allocation>)
    requires Inv(t, outside, 0) && LimitOk(t, source, limit) && Pressure(t, ForkOf(source, limit)).Room?
    ensures var x := t.executions[source];
      var started := Start(t, limit, x.processed, x.pages, 0);
      started.Made? && Inv(started.value.0, outside, 0)
  {
    var x := t.executions[source];
    assert ExecutionShape(t, source, 0) && Ids(t);
    forall k | k != source ensures TailSafe(t, x.pages, k) {
      TailSafeExecution(t, source, k, outside);
    }
    StartInv(t, limit, x.processed, x.pages, 0, source, outside, Promised(t, ForkOf(source, limit)));
  }

  // ---------------------------------------------------------------------- resize

  lemma RelimitBooksShape(s: Ledger, e: ExecutionId, limit: nat, outside: set<Allocation>)
    requires Books(s, multiset{}, outside, 0) && Shape(s, 0) && LimitOk(s, e, limit)
    ensures var s' := s.(executions := s.executions[e := s.executions[e].(limit := limit)]);
      Books(s', multiset{}, outside, 0) && Shape(s', 0)
  {
    var x := s.executions[e].(limit := limit);
    var s' := s.(executions := s.executions[e := x]);
    assert Shifts(multiset{}, UseSet(s.executions[e]), multiset{}, UseSet(x));
    BooksEditExecution(s, e, x, multiset{}, multiset{}, outside, 0);
    forall p ensures PageStays(s, s', p) {}
    forall k ensures ExecutionShape(s', k, 0) {
      assert ExecutionShape(s, k, 0);
      if k == e { TableStays(s, s', x.pages, x.processed); } else { ExecutionShapeStays(s, s', k); }
    }
    forall c ensures CheckpointShape(s', c) {
      assert CheckpointShape(s, c);
      SumPut(s.executions, Borrows(c), e, x);
      CheckpointShapeStays(s, s', c);
    }
    forall p ensures PageShape(s', p) { assert PageShape(s, p); }
  }

  /** Shrinking always succeeds; growing succeeds exactly when all promises still fit. */
  lemma ResizeBatchInv(s: Ledger, e: ExecutionId, limit: nat, outside: set<Allocation>)
    requires Inv(s, outside, 0)
    ensures Inv(ResizeBatch(s, e, limit).0, outside, 0)
    ensures LimitOk(s, e, limit) && limit <= s.executions[e].limit ==> ResizeBatch(s, e, limit).1.Done?
    ensures LimitOk(s, e, limit) ==>
      var t := s.(executions := s.executions[e := s.executions[e].(limit := limit)]);
      ResizeBatch(s, e, limit).1.Done? <==> HasRoom(t)
  {
    if LimitOk(s, e, limit) {
      var x := s.executions[e].(limit := limit);
      var t := s.(executions := s.executions[e := x]);
      RelimitBooksShape(s, e, limit, outside);
      if limit <= s.executions[e].limit {
        PageCountMonotone(limit, s.executions[e].limit, s.config.pageTokens);
        RelimitReserved(s, t, e, x);
      } else {
        AlignmentOk();
        TakeAllUniform(s.pool.free, Reserved(t), s.config.pageBytes, ALIGNMENT, s.pool.capacity);
      }
    }
  }

  lemma RelimitReserved(s: Ledger, t: Ledger, e: ExecutionId, x: Execution)
    requires e in s.executions && x == s.executions[e].(limit := x.limit) && x.limit <= s.executions[e].limit
    requires t == s.(executions := s.executions[e := x])
    requires PageCount(x.limit, s.config.pageTokens) <= PageCount(s.executions[e].limit, s.config.pageTokens)
    ensures Reserved(t) <= Reserved(s)
  {
    forall k | k in t.executions ensures ReservedOf(t, t.executions[k]) <= ReservedOf(s, s.executions[k]) {}
    SumMonotone(t.executions, Reservation(t), s.executions, Reservation(s));
  }

  // --------------------------------------------------------------------- captures

  /** The state after `StoreCapture`, field by field. */
  lemma StoreCaptureFields(s: Ledger, e: ExecutionId)
    requires e in s.executions && StoreCapture(s, e).Made?
    ensures var x := s.executions[e];
      var local := s.config.SnapshotBytes(x.processed);
      && Attempted(s.pool, local, ALIGNMENT).Granted?
      && Attempted(Attempted(s.pool, local, ALIGNMENT).pool, s.config.hiddenBytes, ALIGNMENT).Granted?
      && var Granted(pool1, snapshot) := Attempted(s.pool, local, ALIGNMENT);
         var Granted(pool2, hidden) := Attempted(pool1, s.config.hiddenBytes, ALIGNMENT);
         var capture := Capture(snapshot, hidden);
         StoreCapture(s, e).value ==
           (s.(pool := pool2, indexUsed := s.indexUsed + CheckpointBytes(|x.pages|),
               pages := Retained(s.pages, x.pages),
               executions := s.executions[e := x.(capture := capture)]), capture)
  {
  }

  lemma StoreCaptureBooks(s: Ledger, e: ExecutionId, outside: set<Allocation>)
    requires PoolOk(s) && Books(s, multiset{}, outside, 0) && e in s.executions
    requires Table(s, s.executions[e].pages, s.executions[e].processed)
    requires s.executions[e].capture.NoCapture? && StoreCapture(s, e).Made?
    ensures var (s', capture) := StoreCapture(s, e).value;
      && PoolOk(s') && Books(s', multiset{}, outside, 0)
      && capture.snapshot.bytes == s.config.SnapshotBytes(s.executions[e].processed)
      && capture.hidden.bytes == s.config.hiddenBytes
  {
    var x := s.executions[e];
    StoreCaptureFields(s, e);
    var n := CheckpointBytes(|x.pages|);
    var (s', capture) := StoreCapture(s, e).value;
    BooksTwoBuffers(s, s.config.SnapshotBytes(x.processed), s.config.hiddenBytes, n, outside);
    TablePresent(s, x.pages, x.processed);
    var t := s.(pool := s'.pool, indexUsed := s.indexUsed + n);
    CaptureBooksAfter(t, e, capture, outside);
    assert t.(pages := Retained(t.pages, x.pages), executions := t.executions[e := x.(capture := capture)]) == s';
  }

  lemma CaptureBooksAfter(t: Ledger, e: ExecutionId, capture: Capture, outside: set<Allocation>)
    requires e in t.executions && t.executions[e].capture.NoCapture? && capture.Capture?
    requires PoolOk(t) && Books(t, multiset{}, outside + {capture.snapshot, capture.hidden},
      CheckpointBytes(|t.executions[e].pages|))
    requires capture.snapshot != capture.hidden && capture.snapshot !in outside && capture.hidden !in outside
    requires forall p :: p in t.executions[e].pages ==> p in t.pages
    ensures var s' := t.(pages := Retained(t.pages, t.executions[e].pages),
                         executions := t.executions[e := t.executions[e].(capture := capture)]);
      PoolOk(s') && Books(s', multiset{}, outside, 0)
  {
    var x := t.executions[e];
    BooksShare(t, x.pages, outside + {capture.snapshot, capture.hidden}, CheckpointBytes(|x.pages|));
    var u := t.(pages := Retained(t.pages, x.pages));
    assert multiset{} + multiset(x.pages) == multiset(x.pages);
    BooksSetCapture(u, e, capture, multiset{}, outside + {capture.snapshot, capture.hidden}, 0);
    assert outside + {capture.snapshot, capture.hidden} - {capture.snapshot, capture.hidden} == outside;
    assert u.(executions := u.executions[e := u.executions[e].(capture := capture)])
        == t.(pages := Retained(t.pages, x.pages), executions := t.executions[e := x.(capture := capture)]);
  }

  lemma StoreCaptureShape(s: Ledger, s': Ledger, e: ExecutionId, x: Execution)
    requires Shape(s, 0) && Ids(s) && e in s.executions && x == s.executions[e].(capture := x.capture)
    requires s'.config == s.config && s'.pages == Retained(s.pages, x.pages)
    requires s'.executions == s.executions[e := x] && s'.checkpoints == s.checkpoints
    requires x.processed > 0 && x.capture.Capture?
    requires x.capture.snapshot.bytes == s.config.SnapshotBytes(x.processed)
      && x.capture.hidden.bytes == s.config.hiddenBytes
    ensures Shape(s', 0)
  {
    RetainedStays(s, s', x.pages);
    forall k ensures ExecutionShape(s', k, 0) {
      assert ExecutionShape(s, k, 0);
      if k == e { TableStays(s, s', x.pages, x.processed); } else { ExecutionShapeStays(s, s', k); }
    }
    forall c ensures CheckpointShape(s', c) {
      assert CheckpointShape(s, c);
      SumPut(s.executions, Borrows(c), e, x);
      CheckpointShapeStays(s, s', c);
    }
    forall p ensures PageShape(s', p) { assert PageShape(s, p); }
  }

  lemma StoreCaptureReserved(s: Ledger, s': Ledger, e: ExecutionId, x: Execution)
    requires e in s.executions && x == s.executions[e].(capture := x.capture)
    requires s'.config == s.config && s'.pages == Retained(s.pages, x.pages) && s'.executions == s.executions[e := x]
    requires Refs(s, multiset{}) && (forall k :: k != e ==> TailSafe(s, x.pages, k))
    ensures Reserved(s') <= Reserved(s) + if SourceTailCopy(s, s.executions[e]) then 1 else 0
  {
    ReservedRetained(s, s', x.pages, e);
    SumPut(s.executions, Reservation(s'), e, x);
  }

  /** A capture spends only unreserved room: all admitted growth stays covered. */
  lemma BeginCaptureInv(s: Ledger, e: ExecutionId, outside: set<Allocation>)
    requires Inv(s, outside, 0)
    ensures Inv(BeginCapture(s, e).0, outside, 0)
    ensures e in s.executions && s.executions[e].processed > 0 && s.executions[e].capture.NoCapture? ==>
              !BeginCapture(s, e).1.Rejected?
  {
    if e in s.executions && s.executions[e].processed > 0 && s.executions[e].capture.NoCapture?
       && !BeginCapture(s, e).1.Refused?
    {
      var x := s.executions[e];
      var n := Reserved(s) + if NewTailCopy(s, x) then 1 else 0;
      assert ExecutionShape(s, e, 0);
      PlanFits(s, s.config.SnapshotBytes(x.processed), s.config.hiddenBytes, n);
      var (s', capture) := StoreCapture(s, e).value;
      StoreCaptureBooks(s, e, outside);
      StoreCaptureShape(s, s', e, s'.executions[e]);
      forall k | k != e ensures TailSafe(s, x.pages, k) { TailSafeExecution(s, e, k, outside); }
      StoreCaptureReserved(s, s', e, s'.executions[e]);
    }
  }

  // ---------------------------------------------------------------------- publish

  lemma PublishBooks(s: Ledger, e: ExecutionId, x: Checkpoint, outside: set<Allocation>)
    requires Books(s, multiset{}, outside, 0) && e in s.executions && s.executions[e].capture.Capture?
    requires x.pages == s.executions[e].pages
    requires x.snapshot == s.executions[e].capture.snapshot && x.hidden == s.executions[e].capture.hidden
    ensures Books(s.(nextCheckpoint := s.nextCheckpoint + 1, checkpoints := s.checkpoints[s.nextCheckpoint := x],
                     executions := s.executions[e := s.executions[e].(capture := NoCapture)]), multiset{}, outside, 0)
  {
    BooksClearCapture(s, e, multiset{}, outside, 0);
    var t := s.(executions := s.executions[e := s.executions[e].(capture := NoCapture)]);
    var loose := outside + {x.snapshot, x.hidden};
    assert multiset{} + multiset(x.pages) == multiset(x.pages);
    BooksNewCheckpoint(t, x, multiset{}, loose, 0);
    assert loose - {x.snapshot, x.hidden} == outside;
    assert s.(nextCheckpoint := s.nextCheckpoint + 1, checkpoints := s.checkpoints[s.nextCheckpoint := x],
        executions := t.executions)
        == t.(checkpoints := t.checkpoints[t.nextCheckpoint := x], nextCheckpoint := t.nextCheckpoint + 1);
  }

  lemma PublishShape(s: Ledger, s': Ledger, e: ExecutionId, c: CheckpointId, x: Checkpoint)
    requires Shape(s, 0) && Ids(s) && e in s.executions && s.executions[e].capture.Capture? && c == s.nextCheckpoint
    requires s'.config == s.config && s'.pages == s.pages && s'.checkpoints == s.checkpoints[c := x]
    requires s'.executions == s.executions[e := s.executions[e].(capture := NoCapture)]
    requires x.processed == s.executions[e].processed && x.pages == s.executions[e].pages
    requires x.localTokens == s.config.SnapshotTokens(x.processed) && x.localStart == Less(x.processed, x.localTokens)
    requires x.snapshot.bytes == s.config.SnapshotBytes(x.processed) && x.hidden.bytes == s.config.hiddenBytes
      && x.borrowers == 0
    ensures Shape(s', 0)
  {
    var y := s'.executions[e];
    forall p ensures PageStays(s, s', p) {}
    forall k ensures ExecutionShape(s', k, 0) {
      assert ExecutionShape(s, k, 0);
      if k == e { TableStays(s, s', y.pages, y.processed); } else { ExecutionShapeStays(s, s', k); }
    }
    assert ExecutionShape(s, e, 0);
    forall d ensures CheckpointShape(s', d) {
      assert CheckpointShape(s, d);
      SumPut(s.executions, Borrows(d), e, y);
      if d == c {
        NoBorrowers(s, c);
        TableStays(s, s', x.pages, x.processed);
      } else {
        CheckpointShapeStays(s, s', d);
      }
    }
    forall p ensures PageShape(s', p) { assert PageShape(s, p); }
  }

  lemma NoBorrowers(s: Ledger, c: CheckpointId)
    requires Shape(s, 0) && c !in s.checkpoints && c != 0
    ensures Sum(s.executions, Borrows(c)) == 0
  {
    forall k | k in s.executions ensures s.executions[k].source != c { assert ExecutionShape(s, k, 0); }
    SumZero(s.executions, Borrows(c));
  }

  /** Publication moves the capture's pages, buffers and charge into a checkpoint record. */
  lemma PublishInv(s: Ledger, e: ExecutionId, snapshot: Allocation, hidden: Allocation, outside: set<Allocation>)
    requires Inv(s, outside, 0)
    ensures Inv(Publish(s, e, snapshot, hidden).0, outside, 0)
    ensures Publish(s, e, snapshot, hidden).1.Done? <==>
              e in s.executions && s.executions[e].capture == Capture(snapshot, hidden)
  {
    assert ExecutionShape(s, e, 0);
    assert OwnerOk(s, outside, CaptureSnapshot(e)) && OwnerOk(s, outside, CaptureHidden(e));
    if Publish(s, e, snapshot, hidden).1.Done? {
      var capture := s.executions[e].capture;
      SameId(s.pool, snapshot, capture.snapshot);
      SameId(s.pool, hidden, capture.hidden);
      var s' := Publish(s, e, snapshot, hidden).0;
      var x := s'.checkpoints[s.nextCheckpoint];
      PublishBooks(s, e, x, outside);
      PublishShape(s, s', e, s.nextCheckpoint, x);
      PublishReserved(s, s', e);
    }
  }

  lemma PublishReserved(s: Ledger, s': Ledger, e: ExecutionId)
    requires e in s.executions && s'.config == s.config && s'.pages == s.pages
    requires s'.executions == s.executions[e := s.executions[e].(capture := NoCapture)]
    ensures Reserved(s') <= Reserved(s)
  {
    forall k | k in s'.executions ensures ReservedOf(s', s'.executions[k]) <= ReservedOf(s, s.executions[k]) {}
    SumMonotone(s'.executions, Reservation(s'), s.executions, Reservation(s));
  }

  lemma SameId(pool: Pool, x: Allocation, y: Allocation)
    requires WellFormed(pool) && x in pool.live && y in pool.live && x.id == y.id
    ensures x == y
  {
    if x != y { LiveApart(pool, x, y); }
  }
}
