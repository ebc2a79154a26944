/** The cache ledger as an object: its methods update the records and the pool in place and
    are proved to do exactly what the ledger functions say, keeping the invariant. */
module KvCache {
  import opened FreeRanges
  import opened BytePools
  import opened Totals
  import opened PageMath
  import opened KvLedger
  import opened KvBooks
  import opened KvRecords
  import opened KvInvariant
  import opened KvReclaim
  import opened KvAdmission
  import opened KvWrites
  import opened KvAccounts
  import opened KvReports
  import opened KvProgress

  lemma ReleaseAllStep(s: Ledger, ids: seq<PageId>, i: nat)
    requires i < |ids|
    ensures ReleaseAll(s, ids[i..]) == ReleaseAll(KvLedger.ReleasePage(s, ids[i]), ids[i + 1..])
  {
    assert ids[i..][0] == ids[i] && ids[i..][1..] == ids[i + 1..];
  }

  lemma RetainedStep(pages: map<PageId, Page>, ids: seq<PageId>, i: nat)
    requires i < |ids|
    ensures Retained(pages, ids[..i + 1]) ==
      var before := Retained(pages, ids[..i]);
      if ids[i] in before then before[ids[i] := before[ids[i]].(references := before[ids[i]].references + 1)]
          else before
  {
    assert ids[..i + 1] == ids[..i] + [ids[i]];
    assert multiset(ids[..i + 1]) == multiset(ids[..i]) + multiset{ids[i]};
  }

  function Count(counts: map<PageId, nat>, p: PageId): nat { if p in counts then counts[p] else 0 }

  class CacheLedger {
    const config: ValidConfig
    const pool: BytePool
    var indexUsed: nat
    var nextPage: PageId
    var nextCheckpoint: CheckpointId
    var nextExecution: ExecutionId
    var pages: map<PageId, Page>
    var checkpoints: map<CheckpointId, Checkpoint>
    var executions: map<ExecutionId, Execution>
    var copies: nat
    ghost var outside: set<Allocation>

    ghost function View(): Ledger
      reads this, pool
    {
      Ledger(config, pool.View(), indexUsed, nextPage, nextCheckpoint, nextExecution, pages, checkpoints, executions,
          copies)
    }

    ghost predicate Valid()
      reads this, pool
    {
      Inv(View(), outside, 0)
    }

    constructor (config: ValidConfig)
      ensures Valid() && View() == Initial(config) && outside == {} && fresh(pool)
    {
      this.config := config;
      pool := new BytePool(config.gpuBytes, Gpu);
      indexUsed, nextPage, nextCheckpoint, nextExecution, copies := 0, 1, 1, 1, 0;
      pages, checkpoints, executions := map[], map[], map[];
      outside := {};
      new;
      InvInitial(config);
    }

    // -------------------------------------------------------------- pages

    method ReservedPages() returns (n: nat)
      ensures n == Reserved(View())
    {
      n := 0;
      var todo := executions;
      while todo != map[]
        invariant todo.Keys <= executions.Keys && forall k :: k in todo ==> todo[k] == executions[k]
        invariant n + Sum(todo, Reservation(View())) == Reserved(View())
        decreases |todo|
      {
        var k :| k in todo;
        SumRemove(todo, Reservation(View()), k);
        KeysDrop(todo, k);
        var info := todo[k];
        var total := PageCount(info.limit, config.pageTokens);
        var tailCopy := info.processed < info.limit && InPage(info.processed, config.pageTokens) != 0
          && info.pages != [] && info.pages[|info.pages| - 1] in pages
          && pages[info.pages[|info.pages| - 1]].references > 1;
        n := n + Less(total, |info.pages|) + if tailCopy then 1 else 0;
        todo := todo - {k};
      }
      SumZero(todo, Reservation(View()));
    }

    method RetainPages(ids: seq<PageId>)
      modifies this`pages
      ensures pages == Retained(old(pages), ids)
    {
      assert Retained(pages, ids[..0]) == pages;
      for i := 0 to |ids|
        invariant pages == Retained(old(pages), ids[..i])
      {
        RetainedStep(old(pages), ids, i);
        if ids[i] in pages {
          pages := pages[ids[i] := pages[ids[i]].(references := pages[ids[i]].references + 1)];
        }
      }
      assert ids[..|ids|] == ids;
    }

    method ReleasePage(p: PageId)
      requires pool.Valid()
      modifies this`pages, this`indexUsed, pool
      ensures pool.Valid() && View() == KvLedger.ReleasePage(old(View()), p)
    {
      if p in pages && pages[p].references != 0 {
        var page := pages[p];
        if page.references > 1 {
          pages := pages[p := page.(references := page.references - 1)];
        } else {
          var _ := pool.Release(page.storage);
          indexUsed := Less(indexUsed, PAGE_INFO_BYTES);
          pages := pages - {p};
        }
      }
    }

    method ReleasePages(ids: seq<PageId>)
      requires pool.Valid()
      modifies this`pages, this`indexUsed, pool
      ensures pool.Valid() && View() == ReleaseAll(old(View()), ids)
    {
      assert ids[0..] == ids;
      for i := 0 to |ids|
        invariant pool.Valid()
        invariant ReleaseAll(View(), ids[i..]) == ReleaseAll(old(View()), ids)
      {
        ReleaseAllStep(View(), ids, i);
        ReleasePage(ids[i]);
      }
    }

    method CreatePage(firstToken: nat) returns (r: Result<PageId>)
      requires pool.Valid()
      modifies this`pages, this`indexUsed, this`nextPage, pool
      ensures pool.Valid()
      ensures match KvLedger.CreatePage(old(View()), firstToken)
        case Made((next, p)) => r == Made(p) && View() == next
        case Exhausted => r == Exhausted && View() == old(View())
    {
      if indexUsed + PAGE_INFO_BYTES > config.indexBytes { return Exhausted; }
      var ok, granted, storage := pool.TryAllocate(config.pageBytes, ALIGNMENT);
      if !ok || !granted { return Exhausted; }
      indexUsed := indexUsed + PAGE_INFO_BYTES;
      var id := nextPage;
      nextPage := nextPage + 1;
      pages := pages[id := Page(storage, firstToken, 0, 1)];
      return Made(id);
    }

    // ------------------------------------------------------------ eviction

    method EraseCheckpoint(c: CheckpointId)
      requires Valid() && c in checkpoints && Idle(checkpoints[c])
      modifies this`pages, this`indexUsed, this`checkpoints, pool
      ensures Valid() && View() == KvLedger.EraseCheckpoint(old(View()), c)
    {
      EraseCheckpointInv(View(), c, outside);
      DropCheckpoint(c);
    }

    method DropCheckpoint(c: CheckpointId)
      requires pool.Valid() && c in checkpoints
      modifies this`pages, this`indexUsed, this`checkpoints, pool
      ensures pool.Valid() && View() == KvLedger.EraseCheckpoint(old(View()), c)
    {
      var value := checkpoints[c];
      ReleaseHeld(value.pages, value.snapshot, value.hidden);
      checkpoints := checkpoints - {c};
    }

    /** Gives back what a checkpoint or a capture holds, and its record's share of the index. */
    method ReleaseHeld(ids: seq<PageId>, snapshot: Allocation, hidden: Allocation)
      requires pool.Valid()
      modifies this`pages, this`indexUsed, pool
      ensures pool.Valid()
      ensures var freed := FreeBoth(ReleaseAll(old(View()), ids), snapshot, hidden);
        View() == freed.(indexUsed := Less(freed.indexUsed, CheckpointBytes(|ids|)))
    {
      ReleasePages(ids);
      var _ := pool.Release(snapshot);
      var _ := pool.Release(hidden);
      indexUsed := Less(indexUsed, CheckpointBytes(|ids|));
    }

    method EligibleCheckpoints(protect: CheckpointId) returns (eligible: set<CheckpointId>)
      ensures eligible == Eligible(View(), protect)
    {
      eligible := {};
      var todo := checkpoints.Keys;
      while todo != {}
        invariant todo <= checkpoints.Keys
        invariant eligible == set c | c in checkpoints && c !in todo && Idle(checkpoints[c]) && c != protect
        decreases |todo|
      {
        var c :| c in todo;
        todo := todo - {c};
        if checkpoints[c].borrowers == 0 && checkpoints[c].pins == 0 && c != protect {
          eligible := eligible + {c};
        }
      }
    }

    method EvictIdleCheckpoint(protect: CheckpointId, cause: Cause, select: Selector) returns (evicted: bool)
      requires Valid()
      modifies this`pages, this`indexUsed, this`checkpoints, pool
      ensures Valid()
      ensures match EvictIdle(old(View()), protect, cause, select)
        case Made(next) => evicted && View() == next
        case Exhausted => !evicted && View() == old(View())
    {
      var eligible := EligibleCheckpoints(protect);
      if eligible == {} { return false; }
      var victim := select(protect, eligible, cause);
      if victim !in eligible { return false; }
      EraseCheckpoint(victim);
      return true;
    }

    /** Eviction with no policy: the oldest idle checkpoint that is not protected, if any. */
    method EvictOldestCheckpoint(protect: CheckpointId, cause: Cause) returns (evicted: bool)
      requires Valid()
      modifies this`pages, this`indexUsed, this`checkpoints, pool
      ensures Valid()
      ensures evicted <==> Eligible(old(View()), protect) != {}
      ensures !evicted ==> View() == old(View())
      ensures evicted ==> exists c: CheckpointId ::
        IsOldest(Eligible(old(View()), protect), c) && View() == KvLedger.EraseCheckpoint(old(View()), c)
    {
      var eligible := EligibleCheckpoints(protect);
      if eligible == {} { return false; }
      var victim := Oldest(protect, eligible, cause);
      assert IsOldest(eligible, victim);
      EraseCheckpoint(victim);
      return true;
    }

    method PressureCause(n: nat) returns (verdict: Verdict)
      ensures verdict == Pressure(View(), NewPages(n))
    {
      if indexUsed + config.ExecutionBytes() + n * PAGE_INFO_BYTES > config.indexBytes { return Lacks(IndexPressure); }
      var ok, fits := pool.CanAllocateSequence(Plan(config, n), ALIGNMENT);
      if !ok || !fits { return Lacks(GpuPressure); }
      return Room;
    }

    /** Pages a demand needs in the present state. */
    method DemandedPages(demand: Demand) returns (n: nat)
      ensures n == Promised(View(), demand)
    {
      match demand
      case NewPages(k) => n := k;
      case ForkOf(source, limit) =>
        n := ReservedPages();
        if source in executions {
          var e := executions[source];
          var partial := InPage(e.processed, config.pageTokens) != 0;
          var tailCopy := partial && e.processed < e.limit && e.pages != [] && e.pages[|e.pages| - 1] in pages
            && pages[e.pages[|e.pages| - 1]].references == 1;
          n := n + Less(PageCount(limit, config.pageTokens), |e.pages|)
              + (if partial && e.processed < limit then 1 else 0)
             + if tailCopy then 1 else 0;
        }
    }

    method MakeRoomFor(demand: Demand, protect: CheckpointId, select: Selector) returns (verdict: Verdict)
      requires Valid()
      modifies this`pages, this`indexUsed, this`checkpoints, pool
      ensures Valid() && (View(), verdict) == MakeRoom(old(View()), demand, protect, select)
    {
      verdict := DemandPressure(demand);
      while verdict.Lacks?
        invariant Valid() && verdict == Pressure(View(), demand)
        invariant MakeRoom(View(), demand, protect, select) == MakeRoom(old(View()), demand, protect, select)
        decreases |checkpoints|
      {
        EvictShrinksIfMade(View(), protect, verdict.cause, select);
        var evicted := EvictIdleCheckpoint(protect, verdict.cause, select);
        if !evicted { return; }
        verdict := DemandPressure(demand);
      }
    }

    method DemandPressure(demand: Demand) returns (verdict: Verdict)
      ensures verdict == Pressure(View(), demand)
    {
      var n := DemandedPages(demand);
      verdict := PressureCause(n);
    }

    // ----------------------------------------------------------- admission

    method BatchRequestFits(source: CheckpointId, limit: nat) returns (r: Outcome<bool>)
      ensures r == BatchFits(View(), source, limit)
    {
      if limit == 0 || limit > config.maxContext { return Rejected; }
      if source != 0 && source !in checkpoints { return Rejected; }
      var resumed, held, state := 0, 0, 0;
      if source != 0 {
        var info := checkpoints[source];
        resumed, held, state := info.processed, |info.pages|, info.snapshot.bytes + info.hidden.bytes;
      }
      if limit < resumed { return Rejected; }
      var total := PageCount(limit, config.pageTokens);
      var tail := if resumed < limit && InPage(resumed, config.pageTokens) != 0 then 1 else 0;
      var needed := Less(total, held) + tail;
      if config.ringBytes + config.tableBytes + (total + tail) * config.pageBytes + state > config.gpuBytes {
        return Done(false);
      }
      var sourceMetadata := if source == 0 then 0 else CheckpointBytes(held) + held * PAGE_INFO_BYTES;
      if sourceMetadata + config.ExecutionBytes() + needed * PAGE_INFO_BYTES > config.indexBytes { return Done(false); }
      if source == 0 {
        var probe := new BytePool(config.gpuBytes, Gpu);
        assert probe.freeRanges == probe.View().free;
        var ok, fits := probe.CanAllocateSequence(Plan(config, needed), ALIGNMENT);
        return Done(ok && fits);
      }
      return Done(true);
    }

    /** The two buffers of an accepted admission or capture. */
    method AllocatePair(first: nat, second: nat) returns (x: Allocation, y: Allocation)
      requires pool.Valid() && Attempted(pool.View(), first, ALIGNMENT).Granted?
      requires Attempted(Attempted(pool.View(), first, ALIGNMENT).pool, second, ALIGNMENT).Granted?
      modifies pool
      ensures pool.Valid()
      ensures var Granted(pool1, a) := Attempted(old(pool.View()), first, ALIGNMENT);
        Attempted(pool1, second, ALIGNMENT) == Granted(pool.View(), y) && x == a
    {
      var _, _, a := pool.TryAllocate(first, ALIGNMENT);
      var _, _, b := pool.TryAllocate(second, ALIGNMENT);
      return a, b;
    }

    method ReleasePair(x: Allocation, y: Allocation)
      requires pool.Valid()
      modifies pool
      ensures pool.Valid() && pool.View() == Released(Released(old(pool.View()), x), y)
    {
      var _ := pool.Release(x);
      var _ := pool.Release(y);
    }

    method BorrowSource(source: CheckpointId)
      modifies this`checkpoints
      ensures checkpoints == Borrowed(old(checkpoints), source)
    {
      if source in checkpoints {
        checkpoints := checkpoints[source := checkpoints[source].(borrowers := checkpoints[source].borrowers + 1)];
      }
    }

    method ReturnSource(source: CheckpointId)
      modifies this`checkpoints
      ensures checkpoints == Unborrowed(old(checkpoints), source)
    {
      if source in checkpoints {
        checkpoints := checkpoints[source := checkpoints[source].(borrowers := Less(checkpoints[source].borrowers, 1))];
      }
    }

    method SourceState(source: CheckpointId) returns (resumed: nat, held: seq<PageId>)
      ensures resumed == Resumed(View(), source) && held == Inherited(View(), source)
    {
      if source == 0 || source !in checkpoints { return 0, []; }
      return checkpoints[source].processed, checkpoints[source].pages;
    }

    /** Creates the execution once its room is proven; the buffers are then always granted. */
    method BeginExecution(source: CheckpointId, limit: nat, processed: nat, ids: seq<PageId>) returns (id: ExecutionId)
      requires pool.Valid() && Start(View(), limit, processed, ids, source).Made?
      modifies this, pool
      ensures pool.Valid() && outside == old(outside)
      ensures (View(), id) == Start(old(View()), limit, processed, ids, source).value
    {
      ghost var s := View();
      StartFields(s, limit, processed, ids, source);
      indexUsed := indexUsed + config.ExecutionBytes();
      var ring, table := AllocatePair(config.ringBytes, config.tableBytes);
      var x := Execution(processed, limit, ids, ring, table, source, NoCapture);
      StartIs(s, limit, processed, ids, source, Attempted(s.pool, config.ringBytes, ALIGNMENT).pool, pool.View(),
          View(), x);
      id := Enrol(x);
    }

    /** The new execution takes its number, its pages and its source. The source draws the number before
        the buffers; with both granted the order makes no difference. */
    method Enrol(x: Execution) returns (id: ExecutionId)
      requires pool.Valid()
      modifies this`nextExecution, this`pages, this`checkpoints, this`executions
      ensures View() == Enrolled(old(View()), x) && id == old(nextExecution)
    {
      id := nextExecution;
      nextExecution := id + 1;
      RetainPages(x.pages);
      BorrowSource(x.source);
      executions := executions[id := x];
    }

    method MakeBatchRoom(source: CheckpointId, limit: nat, select: Selector)
      returns (verdict: Verdict, resumed: nat, held: seq<PageId>)
      requires Valid() && BatchFits(View(), source, limit) == Done(true)
      modifies this`pages, this`indexUsed, this`checkpoints, pool
      ensures Valid() && resumed == Resumed(old(View()), source) && held == Inherited(old(View()), source)
      ensures (View(), verdict) == MakeRoom(old(View()), BeginDemand(old(View()), source, limit), source, select)
    {
      ghost var s := View();
      resumed, held := SourceState(source);
      var reserved := ReservedPages();
      DemandIs(View(), source, limit, reserved, resumed, held);
      var demand := NewPages(reserved + Growth(limit, |held|, resumed, config.pageTokens));
      assert demand == BeginDemand(s, source, limit);
      verdict := MakeRoomFor(demand, source, select);
    }

    method TryBeginBatch(source: CheckpointId, limit: nat, select: Selector) returns (r: Outcome<ExecutionId>)
      requires Valid()
      modifies this, pool
      ensures Valid() && outside == old(outside)
      ensures (View(), r) == BeginBatch(old(View()), source, limit, select)
    {
      BeginBatchInv(View(), source, limit, select, outside);
      r := AdmitBatch(source, limit, select);
    }

    method AdmitBatch(source: CheckpointId, limit: nat, select: Selector) returns (r: Outcome<ExecutionId>)
      requires Valid()
      modifies this, pool
      ensures pool.Valid() && outside == old(outside)
      ensures (View(), r) == BeginBatch(old(View()), source, limit, select)
    {
      var fits := BatchRequestFits(source, limit);
      if fits != Done(true) { return Rejected; }
      BeginReady(View(), source, limit, select, outside);
      var verdict, resumed, held := MakeBatchRoom(source, limit, select);
      if verdict.Lacks? { return Refused(verdict.cause); }
      var id := BeginExecution(source, limit, resumed, held);
      return Done(id);
    }

    method TryForkBatch(source: ExecutionId, limit: nat, select: Selector) returns (r: Outcome<ExecutionId>)
      requires Valid()
      modifies this, pool
      ensures Valid() && outside == old(outside)
      ensures (View(), r) == ForkBatch(old(View()), source, limit, select)
    {
      ForkBatchInv(View(), source, limit, select, outside);
      r := AdmitFork(source, limit, select);
    }

    method AdmitFork(source: ExecutionId, limit: nat, select: Selector) returns (r: Outcome<ExecutionId>)
      requires Valid()
      modifies this, pool
      ensures pool.Valid() && outside == old(outside)
      ensures (View(), r) == ForkBatch(old(View()), source, limit, select)
    {
      if source !in executions || limit == 0 || limit > config.maxContext || limit < executions[source].processed {
        return Rejected;
      }
      ForkReady(View(), source, limit, select, outside);
      var verdict := MakeRoomFor(ForkOf(source, limit), 0, select);
      if verdict.Lacks? { return Refused(verdict.cause); }
      var id := BeginExecution(0, limit, executions[source].processed, executions[source].pages);
      return Done(id);
    }

    method TryResizeBatch(e: ExecutionId, limit: nat) returns (r: Outcome<()>)
      requires Valid()
      modifies this`executions
      ensures Valid()
      ensures (View(), r) == ResizeBatch(old(View()), e, limit)
    {
      ResizeBatchInv(View(), e, limit, outside);
      r := Relimit(e, limit);
    }

    method Relimit(e: ExecutionId, limit: nat) returns (r: Outcome<()>)
      modifies this`executions
      ensures (View(), r) == ResizeBatch(old(View()), e, limit)
    {
      if e !in executions || limit == 0 || limit > config.maxContext || limit < executions[e].processed {
        return Rejected;
      }
      var previous := executions[e];
      executions := executions[e := previous.(limit := limit)];
      assert View() == old(View()).(executions := old(executions)[e := old(executions)[e].(limit := limit)]);
      if limit <= previous.limit { return Done(()); }
      r := PromisesFit();
      if !r.Done? {
        executions := executions[e := previous];
        assert executions == old(executions);
      }
    }

    /** Whether everything promised still fits. */
    method PromisesFit() returns (r: Outcome<()>)
      ensures var s := View();
        r == if s.indexUsed + Reserved(s) * PAGE_INFO_BYTES > s.config.indexBytes then Refused(IndexPressure)
             else if TakeAll(s.pool.free, Repeat(s.config.pageBytes, Reserved(s)), ALIGNMENT).AllFit? then Done(())
             else Refused(GpuPressure)
    {
      var n := ReservedPages();
      if indexUsed + n * PAGE_INFO_BYTES > config.indexBytes { return Refused(IndexPressure); }
      var ok, fits := pool.CanAllocateSequence(Repeat(config.pageBytes, n), ALIGNMENT);
      return if ok && fits then Done(()) else Refused(GpuPressure);
    }

    // ----------------------------------------------------------------- writes

    method AppendPage(e: ExecutionId, firstToken: nat) returns (p: PageId)
      requires pool.Valid() && e in executions && GrowPage(View(), e, firstToken).Made?
      modifies this, pool
      ensures pool.Valid() && outside == old(outside)
      ensures (View(), p) == GrowPage(old(View()), e, firstToken).value
    {
      var made := CreatePage(firstToken);
      p := made.value;
      executions := executions[e := executions[e].(pages := executions[e].pages + [p])];
    }

    method ReplacePage(e: ExecutionId, i: nat) returns (p: PageId)
      requires pool.Valid() && e in executions && i < |executions[e].pages| && executions[e].pages[i] in pages
      requires CopyPage(View(), e, i).Made?
      modifies this, pool
      ensures pool.Valid() && outside == old(outside)
      ensures (View(), p) == CopyPage(old(View()), e, i).value
    {
      var shared := executions[e].pages[i];
      var before := pages[shared];
      CopyIs(View(), e, i);
      var made := CreatePage(before.firstToken);
      p := made.value;
      PlaceCopy(e, i, p, before.validTokens);
      ReleasePage(shared);
    }

    method PlaceCopy(e: ExecutionId, i: nat, p: PageId, tokens: nat)
      requires pool.Valid() && e in executions && i < |executions[e].pages| && p in pages
      modifies this`pages, this`executions, this`copies
      ensures View() == CopyPlaced(old(View()), e, i, p, tokens)
    {
      pages := pages[p := pages[p].(validTokens := tokens)];
      executions := executions[e := executions[e].(pages := executions[e].pages[i := p])];
      copies := copies + 1;
    }

    method TouchPages(e: ExecutionId, firstPage: nat, last: nat) returns (plan: WritePlan)
      requires pool.Valid() && e in executions && Touch(View(), e, firstPage, last, WritePlan([], [])).Made?
        && firstPage <= last
      modifies this, pool
      ensures pool.Valid() && outside == old(outside)
      ensures (View(), plan) == Touch(old(View()), e, firstPage, last, WritePlan([], [])).value
    {
      plan := WritePlan([], []);
      ghost var goal := Touch(View(), e, firstPage, last, plan);
      var i := firstPage;
      while i <= last
        invariant firstPage <= i <= last + 1
        invariant pool.Valid() && outside == old(outside) && Remaining(e, i, last, plan, goal)
      {
        plan := TouchPage(e, i, last, plan, goal);
        i := i + 1;
      }
      TouchDone(View(), e, last, plan);
    }

    /** The rest of the page loop leads to `goal`. */
    ghost predicate Remaining(e: ExecutionId, i: nat, last: nat, plan: WritePlan, goal: Result<(Ledger, WritePlan)>)
      reads this, pool
    {
      e in executions && goal.Made? && Touch(View(), e, i, last, plan) == goal
    }

    /** Appends or copies page `i`, or leaves it where it is private. */
    method TouchPage(e: ExecutionId, i: nat, ghost last: nat, before: WritePlan,
        ghost goal: Result<(Ledger, WritePlan)>) returns (plan: WritePlan)
      requires pool.Valid() && Remaining(e, i, last, before, goal) && i <= last
      modifies this, pool
      ensures pool.Valid() && outside == old(outside) && Remaining(e, i + 1, last, plan, goal)
    {
      plan := before;
      TouchOnward(View(), e, i, last, plan);
      if i >= |executions[e].pages| {
        var p := AppendPage(e, FirstToken(i, config.pageTokens));
        plan := plan.(newPages := plan.newPages + [p]);
      } else {
        var shared := executions[e].pages[i];
        if pages[shared].references > 1 {
          var p := ReplacePage(e, i);
          plan := plan.(copies := plan.copies + [(shared, p)]);
        }
      }
    }

    method SettlePages(e: ExecutionId, firstPage: nat, end: nat)
      requires e in executions && firstPage <= |executions[e].pages|
      requires forall p :: p in executions[e].pages ==> p in pages
      modifies this`pages, this`executions
      ensures View() == Settle(old(View()), e, firstPage, end)
    {
      ghost var before := View();
      var ids := executions[e].pages;
      executions := executions[e := executions[e].(processed := end)];
      var i := firstPage;
      while i < |ids|
        invariant firstPage <= i <= |ids|
        invariant executions == before.executions[e := before.executions[e].(processed := end)]
        invariant pages == RefilledPages(before, ids[firstPage..i], end)
      {
        RefillStep(before, ids, firstPage, i, end);
        pages := pages[ids[i] := Refilled(pages[ids[i]], end, config.pageTokens)];
        i := i + 1;
      }
      assert ids[firstPage..i] == ids[firstPage..];
      SettleParts(old(View()), e, firstPage, end);
    }

    /** Never fails inside the admitted limit; `OutOfBudget` does not occur. */
    method PrepareWrite(e: ExecutionId, first: nat, count: nat) returns (r: WriteResult)
      requires Valid()
      modifies this, pool
      ensures Valid() && outside == old(outside)
      ensures (View(), r) == KvLedger.PrepareWrite(old(View()), e, first, count)
      ensures r.BadWrite? || r.Written?
    {
      PrepareWriteInv(View(), e, first, count, outside);
      if count == 0 || e !in executions || executions[e].capture.Capture? || first != executions[e].processed
         || first + count > config.maxContext || first + count > executions[e].limit {
        return BadWrite;
      }
      var end: nat := first + count;
      var firstPage, last := PageOf(first, config.pageTokens), PageOf(end - 1, config.pageTokens);
      WriteReady(View(), e, first, count, firstPage, last, end, outside);
      var plan := WritePages(e, firstPage, last, end);
      return Written(plan);
    }

    method WritePages(e: ExecutionId, firstPage: nat, last: nat, end: nat) returns (plan: WritePlan)
      requires pool.Valid() && e in executions && Touch(View(), e, firstPage, last, WritePlan([], [])).Made?
        && firstPage <= last
      requires var (t, p) := Touch(View(), e, firstPage, last, WritePlan([], [])).value;
        e in t.executions && firstPage <= |t.executions[e].pages| && forall q :: q in t.executions[e].pages ==>
            q in t.pages
      modifies this, pool
      ensures pool.Valid() && outside == old(outside)
      ensures var (t, p) := Touch(old(View()), e, firstPage, last, WritePlan([], [])).value;
        e in t.executions && plan == p && View() == Settle(t, e, firstPage, end)
    {
      plan := TouchPages(e, firstPage, last);
      SettlePages(e, firstPage, end);
    }

    // --------------------------------------------------------------- captures

    method TryBeginCapture(e: ExecutionId) returns (r: Outcome<Capture>)
      requires Valid()
      modifies this, pool
      ensures Valid() && outside == old(outside)
      ensures (View(), r) == BeginCapture(old(View()), e)
    {
      BeginCaptureInv(View(), e, outside);
      r := CaptureIfRoom(e);
    }

    method CaptureIfRoom(e: ExecutionId) returns (r: Outcome<Capture>)
      requires pool.Valid()
      requires e in executions && executions[e].processed > 0 && executions[e].capture.NoCapture? ==>
        !BeginCapture(View(), e).1.Rejected?
      modifies this, pool
      ensures pool.Valid() && outside == old(outside)
      ensures (View(), r) == BeginCapture(old(View()), e)
    {
      ghost var s := View();
      if e !in executions { return Rejected; }
      var info := executions[e];
      if info.processed == 0 || info.capture.Capture? { return Rejected; }
      var local, metadata := config.SnapshotBytes(info.processed), CheckpointBytes(|info.pages|);
      var newTail := InPage(info.processed, config.pageTokens) != 0 && info.processed < info.limit
        && info.pages != [] && info.pages[|info.pages| - 1] in pages
        && pages[info.pages[|info.pages| - 1]].references == 1;
      var reserved := ReservedPages();
      var n := reserved + if newTail then 1 else 0;
      if indexUsed + metadata + n * PAGE_INFO_BYTES > config.indexBytes { return Refused(IndexPressure); }
      var ok, fits := pool.CanAllocateSequence([local, config.hiddenBytes] + Repeat(config.pageBytes, n), ALIGNMENT);
      if !ok || !fits { return Refused(GpuPressure); }
      CaptureReady(s, e);
      var capture := StoreCapture(e);
      return Done(capture);
    }

    method StoreCapture(e: ExecutionId) returns (capture: KvLedger.Capture)
      requires pool.Valid() && e in executions && KvLedger.StoreCapture(View(), e).Made?
      modifies this, pool
      ensures pool.Valid() && outside == old(outside)
      ensures (View(), capture) == KvLedger.StoreCapture(old(View()), e).value
    {
      StorePair(View(), e);
      var info := executions[e];
      indexUsed := indexUsed + CheckpointBytes(|info.pages|);
      var snapshot, hidden := AllocatePair(config.SnapshotBytes(info.processed), config.hiddenBytes);
      RetainPages(info.pages);
      capture := Capture(snapshot, hidden);
      executions := executions[e := info.(capture := capture)];
    }

    method AbortCapture(e: ExecutionId)
      requires Valid() && e in executions
      modifies this, pool
      ensures Valid() && outside == old(outside)
      ensures View() == KvLedger.AbortCapture(old(View()), e)
    {
      AbortCaptureInv(View(), e, outside);
      var info := executions[e];
      if info.capture.NoCapture? { return; }
      DropCapture(e);
    }

    method DropCapture(e: ExecutionId)
      requires pool.Valid() && e in executions && executions[e].capture.Capture?
      modifies this`pages, this`indexUsed, this`executions, pool
      ensures pool.Valid() && View() == KvLedger.AbortCapture(old(View()), e)
    {
      var info := executions[e];
      ReleaseHeld(info.pages, info.capture.snapshot, info.capture.hidden);
      executions := executions[e := info.(capture := NoCapture)];
    }

    method PublishCheckpoint(e: ExecutionId, snapshot: Allocation, hidden: Allocation)
        returns (r: Outcome<CheckpointId>)
      requires Valid()
      modifies this
      ensures Valid() && outside == old(outside)
      ensures (View(), r) == Publish(old(View()), e, snapshot, hidden)
    {
      PublishInv(View(), e, snapshot, hidden, outside);
      r := MoveCapture(e, snapshot, hidden);
    }

    method MoveCapture(e: ExecutionId, snapshot: Allocation, hidden: Allocation) returns (r: Outcome<CheckpointId>)
      modifies this
      ensures outside == old(outside) && (View(), r) == Publish(old(View()), e, snapshot, hidden)
    {
      ghost var s := View();
      if e !in executions { return Rejected; }
      var info := executions[e];
      if info.capture.NoCapture? || info.processed == 0 { return Rejected; }
      var tokens := config.SnapshotTokens(info.processed);
      var ownsSnapshot := pool.Owns(snapshot);
      var ownsHidden := pool.Owns(hidden);
      assert pool.View().live == pool.live;
      if !ownsSnapshot || !ownsHidden || snapshot.bytes != config.SnapshotBytes(info.processed)
          || hidden.bytes != config.hiddenBytes
         || snapshot.id != info.capture.snapshot.id || hidden.id != info.capture.hidden.id {
        return Rejected;
      }
      var id := nextCheckpoint;
      nextCheckpoint := id + 1;
      checkpoints := checkpoints[id :=
          Checkpoint(info.processed, Less(info.processed, tokens), tokens, info.pages, snapshot, hidden, 0, 0)];
      executions := executions[e := info.(capture := NoCapture)];
      assert View() == Publish(s, e, snapshot, hidden).0;
      return Done(id);
    }

    // --------------------------------------------------------------- releases

    method ReleaseExecution(e: ExecutionId) returns (r: Outcome<()>)
      requires Valid()
      modifies this, pool
      ensures Valid() && outside == old(outside)
      ensures (View(), r) == KvLedger.ReleaseExecution(old(View()), e)
    {
      if e !in executions { return Rejected; }
      ReleaseReady(View(), e, outside);
      AbortCapture(e);
      DropExecution(e);
      return Done(());
    }

    method DropExecution(e: ExecutionId)
      requires pool.Valid() && e in executions
      modifies this, pool
      ensures pool.Valid() && outside == old(outside)
      ensures View() == Dropped(old(View()), e)
    {
      DroppedParts(View(), e);
      var info := executions[e];
      ReleasePages(info.pages);
      ReleasePair(info.ring, info.table);
      indexUsed := Less(indexUsed, config.ExecutionBytes());
      ReturnSource(info.source);
      executions := executions - {e};
    }

    method ReleaseCheckpoint(c: CheckpointId) returns (r: Outcome<()>)
      requires Valid()
      modifies this, pool
      ensures Valid() && outside == old(outside)
      ensures (View(), r) == KvLedger.ReleaseCheckpoint(old(View()), c)
    {
      if c !in checkpoints || checkpoints[c].borrowers != 0 || checkpoints[c].pins != 0 { return Rejected; }
      EraseCheckpoint(c);
      return Done(());
    }

    method SetPins(c: CheckpointId, pins: nat)
      requires c in checkpoints
      modifies this`checkpoints
      ensures View() == Repinned(old(View()), c, pins)
    {
      checkpoints := checkpoints[c := checkpoints[c].(pins := pins)];
    }

    method PinCheckpoint(c: CheckpointId) returns (r: Outcome<()>)
      requires Valid()
      modifies this`checkpoints
      ensures Valid()
      ensures View() == Pin(old(View()), c).0
      ensures r == Pin(old(View()), c).1
    {
      if c !in checkpoints { return Rejected; }
      var pins := checkpoints[c].pins + 1;
      RepinInv(View(), c, pins, outside);
      PinIs(View(), c, pins);
      SetPins(c, pins);
      return Done(());
    }

    method UnpinCheckpoint(c: CheckpointId) returns (r: Outcome<()>)
      requires Valid()
      modifies this`checkpoints
      ensures Valid()
      ensures View() == Unpin(old(View()), c).0
      ensures r == Unpin(old(View()), c).1
    {
      if c !in checkpoints || checkpoints[c].pins == 0 { return Rejected; }
      var pins := checkpoints[c].pins - 1;
      RepinInv(View(), c, pins, outside);
      UnpinIs(View(), c, pins);
      SetPins(c, pins);
      return Done(());
    }

    // ------------------------------------------------------ caller allocations

    method TryAllocateGpu(bytes: nat, alignment: nat) returns (r: Outcome<Allocation>)
      requires Valid()
      modifies this, pool
      ensures Valid()
      ensures (View(), r) == AllocateOutside(old(View()), bytes, alignment)
      ensures outside == old(outside) + if r.Done? then {r.value} else {}
    {
      ghost var s := View();
      if executions != map[] { return Refused(GpuPressure); }
      var ok, granted, x := pool.TryAllocate(bytes, alignment);
      if !ok { return Rejected; }
      if !granted { return Refused(GpuPressure); }
      AllocateOutsideInv(s, bytes, alignment, outside);
      outside := outside + {x};
      return Done(x);
    }

    method ReleaseGpu(x: Allocation) returns (ok: bool)
      requires Valid() && (x in outside || x !in pool.live)
      modifies this, pool
      ensures Valid() && View() == ReleaseOutside(old(View()), x)
      ensures outside == old(outside) - {x} && (ok <==> x in old(pool.live))
    {
      ghost var s := View();
      if x in outside { ReleaseOutsideInv(s, x, outside); }
      assert pool.View().live == pool.live;
      ok := pool.Release(x);
      assert View() == ReleaseOutside(s, x);
      if x !in outside { assert outside - {x} == outside && View() == s; }
      outside := outside - {x};
    }

    // ---------------------------------------------------------------- reports

    method CountReferences() returns (ok: bool, references: nat)
      ensures ok <==> forall p :: p in pages ==> PagePasses(config, pages[p])
      ensures ok ==> references == Sum(pages, References())
    {
      references := 0;
      var todo := pages;
      while todo != map[]
        invariant todo.Keys <= pages.Keys && forall p :: p in todo ==> todo[p] == pages[p]
        invariant forall p :: p in pages && p !in todo ==> PagePasses(config, pages[p])
        invariant references + Sum(todo, References()) == Sum(pages, References())
        decreases |todo|
      {
        var p :| p in todo;
        var page := todo[p];
        if page.references == 0 || page.validTokens > config.pageTokens
            || InPage(page.firstToken, config.pageTokens) != 0 {
          return false, 0;
        }
        SumRemove(todo, References(), p);
        KeysDrop(todo, p);
        references := references + page.references;
        todo := todo - {p};
      }
      SumZero(todo, References());
      return true, references;
    }

    method CheckExecution(info: Execution, references: nat) returns (ok: bool, rest: nat)
      ensures ok <==> ExecutionPasses(View(), info) && UseCount()(info) <= references
      ensures ok ==> rest + UseCount()(info) == references
    {
      rest := references;
      assert pool.View().live == pool.live;
      if info.processed > config.maxContext || info.limit > config.maxContext || info.processed > info.limit
         || |info.pages| != PageCount(info.processed, config.pageTokens) || rest < |info.pages| {
        return false, 0;
      }
      rest := rest - |info.pages|;
      if info.capture.Capture? {
        var ownsSnapshot := pool.Owns(info.capture.snapshot);
        var ownsHidden := pool.Owns(info.capture.hidden);
        if rest < |info.pages| || !ownsSnapshot || !ownsHidden { return false, 0; }
        rest := rest - |info.pages|;
      }
      return true, rest;
    }

    method CheckCheckpoint(info: Checkpoint, references: nat) returns (ok: bool, rest: nat)
      ensures ok <==> CheckpointPasses(config, info) && KeepCount()(info) <= references
      ensures ok ==> rest + KeepCount()(info) == references
    {
      if info.processed > config.maxContext || info.localTokens > config.windowTokens
         || info.localStart + info.localTokens != info.processed
         || |info.pages| != PageCount(info.processed, config.pageTokens) || references < |info.pages| {
        return false, 0;
      }
      return true, references - |info.pages|;
    }

    method CheckExecutions(references: nat) returns (ok: bool, rest: nat)
      ensures ok <==> && (forall e :: e in executions ==> ExecutionPasses(View(), executions[e]))
                      && Sum(executions, UseCount()) <= references
      ensures ok ==> rest + Sum(executions, UseCount()) == references
    {
      rest := references;
      var todo := executions;
      while todo != map[]
        invariant todo.Keys <= executions.Keys && forall e :: e in todo ==> todo[e] == executions[e]
        invariant forall e :: e in executions && e !in todo ==> ExecutionPasses(View(), executions[e])
        invariant rest + Sum(executions, UseCount()) == references + Sum(todo, UseCount())
        decreases |todo|
      {
        var e :| e in todo;
        SumRemove(todo, UseCount(), e);
        KeysDrop(todo, e);
        ok, rest := CheckExecution(todo[e], rest);
        if !ok { return false, 0; }
        todo := todo - {e};
      }
      SumZero(todo, UseCount());
      return true, rest;
    }

    method CheckCheckpoints(references: nat) returns (ok: bool, rest: nat)
      ensures ok <==> && (forall c :: c in checkpoints ==> CheckpointPasses(config, checkpoints[c]))
                      && Sum(checkpoints, KeepCount()) <= references
      ensures ok ==> rest + Sum(checkpoints, KeepCount()) == references
    {
      rest := references;
      var todo := checkpoints;
      while todo != map[]
        invariant todo.Keys <= checkpoints.Keys && forall c :: c in todo ==> todo[c] == checkpoints[c]
        invariant forall c :: c in checkpoints && c !in todo ==> CheckpointPasses(config, checkpoints[c])
        invariant rest + Sum(checkpoints, KeepCount()) == references + Sum(todo, KeepCount())
        decreases |todo|
      {
        var c :| c in todo;
        SumRemove(todo, KeepCount(), c);
        KeysDrop(todo, c);
        ok, rest := CheckCheckpoint(todo[c], rest);
        if !ok { return false, 0; }
        todo := todo - {c};
      }
      SumZero(todo, KeepCount());
      return true, rest;
    }

    /** The ledger's self-check. It finds exactly the states that fail it, so never a valid one. */
    method CheckInvariants() returns (ok: bool)
      ensures ok <==> Passes(View()) && Sum(pages, References()) == Sum(executions, UseCount()) + Sum(checkpoints,
        KeepCount())
      ensures Valid() ==> ok
    {
      ghost var s := View();
      if Valid() { SelfCheckPasses(s, outside); }
      var fine, references := CountReferences();
      if !fine { return false; }
      var rest;
      fine, rest := CheckExecutions(references);
      if !fine { return false; }
      fine, rest := CheckCheckpoints(rest);
      return fine && rest == 0 && indexUsed <= config.indexBytes && pool.used <= config.gpuBytes;
    }

    method GpuMemoryStats() returns (r: Result<MemoryStats>)
      requires forall p :: p in pages ==> pages[p].references > 0
      ensures r == Stats(View())
    {
      var parts, reclaimable := MeasureParts();
      var within, slack := PageSlack(pages, config);
      r := Report(config, pool.used, reclaimable, within, parts.(slack := slack));
    }

    method MeasureParts() returns (parts: MemoryStats, reclaimable: nat)
      requires forall p :: p in pages ==> pages[p].references > 0
      ensures parts == StatParts(View()).(slack := 0) && reclaimable == Reclaimable(View())
    {
      var state, idleState, counts := CheckpointStats(checkpoints);
      var all, shared, idlePages := PageStats(pages, counts);
      var buffers, captures := ExecutionStats(executions);
      CountedIdle(View(), counts);
      var growth := ReservedGrowth();
      return MemoryStats(all, shared, state, buffers, captures, 0, 0, 0, growth, 0), idleState + idlePages;
    }

    method ReservedGrowth() returns (bytes: nat)
      ensures bytes == Reserved(View()) * config.pageBytes
    {
      var reserved := ReservedPages();
      bytes := reserved * config.pageBytes;
    }
  }

  lemma EvictShrinksIfMade(s: Ledger, protect: CheckpointId, cause: Cause, select: Selector)
    ensures EvictIdle(s, protect, cause, select).Made? ==>
              |EvictIdle(s, protect, cause, select).value.checkpoints| < |s.checkpoints|
  {
    if EvictIdle(s, protect, cause, select).Made? { EvictShrinks(s, protect, cause, select); }
  }

  // ------------------------------------------------------------- statistics loops

  method CountPages(counts: map<PageId, nat>, ids: seq<PageId>) returns (r: map<PageId, nat>)
    ensures forall p :: Count(r, p) == Count(counts, p) + multiset(ids)[p]
  {
    r := counts;
    for i := 0 to |ids|
      invariant forall p :: Count(r, p) == Count(counts, p) + multiset(ids[..i])[p]
    {
      assert ids[..i + 1] == ids[..i] + [ids[i]];
      r := r[ids[i] := (if ids[i] in r then r[ids[i]] else 0) + 1];
    }
    assert ids[..|ids|] == ids;
  }

  ghost function Idles(cs: map<CheckpointId, Checkpoint>): map<CheckpointId, Checkpoint> {
    map c | c in cs && Idle(cs[c]) :: cs[c]
  }

  lemma IdlesDrop(cs: map<CheckpointId, Checkpoint>, c: CheckpointId)
    requires c in cs
    ensures var n := if Idle(cs[c]) then cs[c].snapshot.bytes + cs[c].hidden.bytes else 0;
      StateSum(Idles(cs)) == StateSum(Idles(cs - {c})) + n
    ensures forall p :: CountDrops(cs, c, p)
  {
    if Idle(cs[c]) {
      assert Idles(cs - {c}) == Idles(cs) - {c};
      StateDrop(Idles(cs), c);
      forall p ensures CountDrops(cs, c, p) { SumRemove(Idles(cs), HeldBy(p), c); }
    } else {
      assert Idles(cs - {c}) == Idles(cs);
    }
  }

  ghost predicate CountDrops(cs: map<CheckpointId, Checkpoint>, c: CheckpointId, p: PageId)
    requires c in cs
  {
    Sum(Idles(cs), HeldBy(p)) == Sum(Idles(cs - {c}), HeldBy(p)) + if Idle(cs[c]) then multiset(cs[c].pages)[p] else 0
  }

  ghost predicate Counting(cs: map<CheckpointId, Checkpoint>, todo: map<CheckpointId, Checkpoint>, counts: map<PageId,
      nat>, p: PageId) {
    Count(counts, p) + Sum(Idles(todo), HeldBy(p)) == Sum(Idles(cs), HeldBy(p))
  }

  method CheckpointStats(cs: map<CheckpointId, Checkpoint>)
      returns (state: nat, idleState: nat, counts: map<PageId, nat>)
    ensures state == StateSum(cs) && idleState == StateSum(Idles(cs))
    ensures forall p :: Count(counts, p) == Sum(Idles(cs), HeldBy(p))
  {
    state, idleState, counts := 0, 0, map[];
    var todo := cs;
    while todo != map[]
      invariant state + StateSum(todo) == StateSum(cs)
      invariant idleState + StateSum(Idles(todo)) == StateSum(Idles(cs))
      invariant forall p :: Counting(cs, todo, counts, p)
      decreases |todo|
    {
      var c :| c in todo;
      var info := todo[c];
      StateDrop(todo, c);
      IdlesDrop(todo, c);
      KeysDrop(todo, c);
      state := state + info.snapshot.bytes + info.hidden.bytes;
      ghost var before := counts;
      if info.borrowers == 0 && info.pins == 0 {
        idleState := idleState + info.snapshot.bytes + info.hidden.bytes;
        counts := CountPages(counts, info.pages);
      }
      forall p ensures Counting(cs, todo - {c}, counts, p) {
        assert Counting(cs, todo, before, p) && CountDrops(todo, c, p);
      }
      todo := todo - {c};
    }
    StateNone(todo);
    assert Idles(todo) == map[];
    StateNone(Idles(todo));
    forall p ensures Count(counts, p) == Sum(Idles(cs), HeldBy(p)) { assert Counting(cs, todo, counts, p); }
  }

  ghost function Counted(ps: map<PageId, Page>, counts: map<PageId, nat>): map<PageId, Page> {
    map p | p in ps && p in counts && counts[p] == ps[p].references :: ps[p]
  }

  lemma CountedDrop(ps: map<PageId, Page>, counts: map<PageId, nat>, p: PageId)
    requires p in ps
    ensures StorageSum(Counted(ps, counts)) ==
      StorageSum(Counted(ps - {p}, counts)) + if p in counts
          && counts[p] == ps[p].references then ps[p].storage.bytes else 0
  {
    if p in counts && counts[p] == ps[p].references {
      assert Counted(ps - {p}, counts) == Counted(ps, counts) - {p};
      StorageDrop(Counted(ps, counts), p);
    } else {
      assert Counted(ps - {p}, counts) == Counted(ps, counts);
    }
  }

  lemma CountedIdle(s: Ledger, counts: map<PageId, nat>)
    requires forall p :: Count(counts, p) == IdleReferences(s, p)
    requires forall p :: p in s.pages ==> s.pages[p].references > 0
    ensures Counted(s.pages, counts) == IdlePages(s)
  {
    forall p | p in s.pages ensures p in Counted(s.pages, counts) <==> p in IdlePages(s) {
      assert Count(counts, p) == IdleReferences(s, p);
    }
  }

  lemma SlackDrop(ps: map<PageId, Page>, p: PageId, config: ValidConfig, bytesPerToken: nat)
    requires p in ps
    requires bytesPerToken == PageOf(config.pageBytes, config.pageTokens)
    ensures Sum(ps, SlackOf(config)) ==
      Sum(ps - {p}, SlackOf(config)) + Unused(ps[p], config.pageTokens, bytesPerToken)
  {
    SumRemove(ps, SlackOf(config), p);
  }

  /** `ok` is false where a page has too many valid tokens. */
  method PageSlack(ps: map<PageId, Page>, config: ValidConfig) returns (ok: bool, slack: nat)
    ensures ok <==> AllWithin(ps, config.pageTokens)
    ensures ok ==> slack == Sum(ps, SlackOf(config))
  {
    var bytesPerToken := PageOf(config.pageBytes, config.pageTokens);
    slack := 0;
    var todo := ps;
    while todo != map[]
      invariant todo.Keys <= ps.Keys && forall p :: p in todo ==> todo[p] == ps[p]
      invariant forall p :: p in ps && p !in todo ==> ps[p].validTokens <= config.pageTokens
      invariant slack + Sum(todo, SlackOf(config)) == Sum(ps, SlackOf(config))
      decreases |todo|
    {
      var p :| p in todo;
      if todo[p].validTokens > config.pageTokens { return false, 0; }
      SlackDrop(todo, p, config, bytesPerToken);
      KeysDrop(todo, p);
      slack := slack + Unused(todo[p], config.pageTokens, bytesPerToken);
      todo := todo - {p};
    }
    SumZero(todo, SlackOf(config));
    return true, slack;
  }

  method PageStats(ps: map<PageId, Page>, counts: map<PageId, nat>) returns (all: nat, shared: nat, idle: nat)
    ensures all == StorageSum(ps) && shared == Sum(ps, SharedBytes()) && idle == StorageSum(Counted(ps, counts))
  {
    all, shared, idle := 0, 0, 0;
    var todo := ps;
    while todo != map[]
      invariant all + StorageSum(todo) == StorageSum(ps) && shared + Sum(todo, SharedBytes()) == Sum(ps, SharedBytes())
      invariant idle + StorageSum(Counted(todo, counts)) == StorageSum(Counted(ps, counts))
      decreases |todo|
    {
      var p :| p in todo;
      var page := todo[p];
      StorageDrop(todo, p);
      CountedDrop(todo, counts, p);
      KeysDrop(todo, p);
      all := all + page.storage.bytes;
      if page.references > 1 { shared := shared + page.storage.bytes; }
      if p in counts && counts[p] == page.references { idle := idle + page.storage.bytes; }
      todo := todo - {p};
    }
    StorageNone(todo);
    assert Counted(todo, counts) == map[];
    StorageNone(Counted(todo, counts));
  }

  method ExecutionStats(es: map<ExecutionId, Execution>) returns (buffers: nat, captures: nat)
    ensures buffers == BufferSum(es) && captures == CaptureSum(es)
  {
    buffers, captures := 0, 0;
    var todo := es;
    while todo != map[]
      invariant buffers + BufferSum(todo) == BufferSum(es) && captures + CaptureSum(todo) == CaptureSum(es)
      decreases |todo|
    {
      var e :| e in todo;
      var info := todo[e];
      BufferDrop(todo, e);
      KeysDrop(todo, e);
      buffers := buffers + info.ring.bytes + info.table.bytes;
      if info.capture.Capture? { captures := captures + info.capture.snapshot.bytes + info.capture.hidden.bytes; }
      todo := todo - {e};
    }
    BufferNone(todo);
  }

  lemma StateNone(cs: map<CheckpointId, Checkpoint>)
    requires cs == map[]
    ensures StateSum(cs) == 0 && forall p :: Sum(cs, HeldBy(p)) == 0
  {
    SumZero(cs, BytesOf(SnapshotSlot()));
    SumZero(cs, BytesOf(HiddenSlot()));
    forall p ensures Sum(cs, HeldBy(p)) == 0 { SumZero(cs, HeldBy(p)); }
  }

  lemma StateDrop(cs: map<CheckpointId, Checkpoint>, c: CheckpointId)
    requires c in cs
    ensures StateSum(cs) == StateSum(cs - {c}) + cs[c].snapshot.bytes + cs[c].hidden.bytes
  {
    SumRemove(cs, BytesOf(SnapshotSlot()), c);
    SumRemove(cs, BytesOf(HiddenSlot()), c);
  }

  lemma StorageNone(ps: map<PageId, Page>)
    requires ps == map[]
    ensures StorageSum(ps) == 0 && Sum(ps, SharedBytes()) == 0
  {
    SumZero(ps, BytesOf(StorageOf()));
    SumZero(ps, SharedBytes());
  }

  lemma StorageDrop(ps: map<PageId, Page>, p: PageId)
    requires p in ps
    ensures StorageSum(ps) == StorageSum(ps - {p}) + ps[p].storage.bytes
    ensures Sum(ps, SharedBytes()) == Sum(ps - {p}, SharedBytes()) + if ps[p].references > 1 then ps[p].storage.bytes
      else 0
  {
    SumRemove(ps, BytesOf(StorageOf()), p);
    SumRemove(ps, SharedBytes(), p);
  }

  lemma BufferNone(es: map<ExecutionId, Execution>)
    requires es == map[]
    ensures BufferSum(es) == 0 && CaptureSum(es) == 0
  {
    SumZero(es, BytesOf(RingSlot()));
    SumZero(es, BytesOf(TableSlot()));
    SumZero(es, BytesOf(CaptureSnapshotSlot()));
    SumZero(es, BytesOf(CaptureHiddenSlot()));
  }

  lemma BufferDrop(es: map<ExecutionId, Execution>, e: ExecutionId)
    requires e in es
    ensures BufferSum(es) == BufferSum(es - {e}) + es[e].ring.bytes + es[e].table.bytes
    ensures CaptureSum(es) == CaptureSum(es - {e}) +
              if es[e].capture.Capture? then es[e].capture.snapshot.bytes + es[e].capture.hidden.bytes else 0
  {
    SumRemove(es, BytesOf(RingSlot()), e);
    SumRemove(es, BytesOf(TableSlot()), e);
    SumRemove(es, BytesOf(CaptureSnapshotSlot()), e);
    SumRemove(es, BytesOf(CaptureHiddenSlot()), e);
  }

  lemma DemandIs(s: Ledger, source: CheckpointId, limit: nat, reserved: nat, resumed: nat, held: seq<PageId>)
    requires reserved == Reserved(s) && resumed == Resumed(s, source) && held == Inherited(s, source)
    ensures BeginDemand(s, source, limit) == NewPages(reserved + Growth(limit, |held|, resumed, s.config.pageTokens))
  {
  }

  lemma ReleaseReady(s: Ledger, e: ExecutionId, outside: set<Allocation>)
    requires Inv(s, outside, 0) && e in s.executions
    ensures e in AbortCapture(s, e).executions
    ensures ReleaseExecution(s, e) == (Dropped(AbortCapture(s, e), e), Done(()))
    ensures Inv(ReleaseExecution(s, e).0, outside, 0)
  {
    AbortCaptureInv(s, e, outside);
    ReleaseExecutionDrops(s, e);
    ReleaseExecutionInv(s, e, outside);
  }

  /** Once room is made, the execution of a batch admission starts. */
  lemma BeginReady(s: Ledger, source: CheckpointId, limit: nat, select: Selector, outside: set<Allocation>)
    requires Inv(s, outside, 0) && BatchFits(s, source, limit) == Done(true)
    ensures source != 0 ==> source in s.checkpoints
    ensures var (t, verdict) := MakeRoom(s, BeginDemand(s, source, limit), source, select);
      if verdict.Lacks? then BeginBatch(s, source, limit, select) == (t, Refused(verdict.cause))
      else
        var started := Start(t, limit, Resumed(s, source), Inherited(s, source), source);
        started.Made? && BeginBatch(s, source, limit, select) == (started.value.0, Done(started.value.1))
  {
    BeginFields(s, source, limit, select);
    MakeRoomInv(s, BeginDemand(s, source, limit), source, select, outside);
    var (t, verdict) := MakeRoom(s, BeginDemand(s, source, limit), source, select);
    if verdict.Room? {
      assert EvictedOnly(s, t, source, source);
      BeginStarts(s, t, source, limit, outside);
    }
  }

  /** Once room is made, the execution of a fork starts. */
  lemma ForkReady(s: Ledger, source: ExecutionId, limit: nat, select: Selector, outside: set<Allocation>)
    requires Inv(s, outside, 0) && LimitOk(s, source, limit)
    ensures var (t, verdict) := MakeRoom(s, ForkOf(source, limit), 0, select);
      && t.executions == s.executions
      && if verdict.Lacks? then ForkBatch(s, source, limit, select) == (t, Refused(verdict.cause))
         else
           var started := Start(t, limit, t.executions[source].processed, t.executions[source].pages, 0);
           started.Made? && ForkBatch(s, source, limit, select) == (started.value.0, Done(started.value.1))
  {
    ForkBatchInv(s, source, limit, select, outside);
    MakeRoomInv(s, ForkOf(source, limit), 0, select, outside);
  }

  /** The filled copy takes its place in the page table. */
  function CopyPlaced(s: Ledger, e: ExecutionId, i: nat, p: PageId, tokens: nat): Ledger
    requires e in s.executions && i < |s.executions[e].pages| && p in s.pages
  {
    s.(pages := s.pages[p := s.pages[p].(validTokens := tokens)],
       executions := s.executions[e := s.executions[e].(pages := s.executions[e].pages[i := p])],
       copies := s.copies + 1)
  }

  lemma CopyIs(s: Ledger, e: ExecutionId, i: nat)
    requires e in s.executions && i < |s.executions[e].pages| && s.executions[e].pages[i] in s.pages
    requires CopyPage(s, e, i).Made?
    ensures var shared := s.executions[e].pages[i];
      var r := KvLedger.CreatePage(s, s.pages[shared].firstToken);
      && r.Made? && r.value.0.executions == s.executions && r.value.1 in r.value.0.pages
      && CopyPage(s, e, i) == Made((
        KvLedger.ReleasePage(CopyPlaced(r.value.0, e, i, r.value.1, s.pages[shared].validTokens), shared), r.value.1))
  {
    CopyFields(s, e, i);
  }

  lemma TouchDone(s: Ledger, e: ExecutionId, last: nat, plan: WritePlan)
    requires e in s.executions
    ensures Touch(s, e, last + 1, last, plan) == Made((s, plan))
  {
  }

  /** One turn of a page loop that runs to the end. */
  lemma TouchOnward(s: Ledger, e: ExecutionId, i: nat, last: nat, plan: WritePlan)
    requires e in s.executions && i <= last && Touch(s, e, i, last, plan).Made?
    ensures i >= |s.executions[e].pages| ==>
      && GrowPage(s, e, FirstToken(i, s.config.pageTokens)).Made?
      && var (u, p) := GrowPage(s, e, FirstToken(i, s.config.pageTokens)).value;
        Touch(s, e, i, last, plan) == Touch(u, e, i + 1, last, plan.(newPages := plan.newPages + [p]))
    ensures i < |s.executions[e].pages| ==> s.executions[e].pages[i] in s.pages
    ensures i < |s.executions[e].pages| && s.pages[s.executions[e].pages[i]].references > 1 ==>
      && CopyPage(s, e, i).Made?
      && var (u, p) := CopyPage(s, e, i).value;
        Touch(s, e, i, last, plan)
            == Touch(u, e, i + 1, last, plan.(copies := plan.copies + [(s.executions[e].pages[i], p)]))
    ensures i < |s.executions[e].pages| && s.pages[s.executions[e].pages[i]].references <= 1 ==>
      Touch(s, e, i, last, plan) == Touch(s, e, i + 1, last, plan)
  {
  }

  lemma RefillStep(s: Ledger, ids: seq<PageId>, first: nat, i: nat, end: nat)
    requires first <= i < |ids| && ids[i] in s.pages
    ensures var pages := RefilledPages(s, ids[first..i], end);
      RefilledPages(s, ids[first..i + 1], end) == pages[ids[i] := Refilled(pages[ids[i]], end, s.config.pageTokens)]
  {
    assert ids[first..i + 1] == ids[first..i] + [ids[i]];
  }

  lemma DroppedParts(a: Ledger, e: ExecutionId)
    requires e in a.executions
    ensures var x, r := a.executions[e], ReleaseAll(a, a.executions[e].pages);
      Dropped(a, e) == r.(pool := Released(Released(r.pool, x.ring), x.table),
          indexUsed := Less(r.indexUsed, a.config.ExecutionBytes()),
                          checkpoints := Unborrowed(a.checkpoints, x.source), executions := a.executions - {e})
  {
    ReleaseAllFrame(a, a.executions[e].pages, a.checkpoints, a.executions - {e});
  }

  lemma SettleParts(s: Ledger, e: ExecutionId, firstPage: nat, end: nat)
    requires e in s.executions && firstPage <= |s.executions[e].pages|
    ensures Settle(s, e, firstPage, end) ==
      s.(executions := s.executions[e := s.executions[e].(processed := end)],
         pages := RefilledPages(s, s.executions[e].pages[firstPage..], end))
  {
  }

  /** A write in range runs its page loop to the end. */
  lemma WriteReady(s: Ledger, e: ExecutionId, first: nat, count: nat, firstPage: nat, last: nat, end: nat,
      outside: set<Allocation>)
    requires Inv(s, outside, 0) && WriteOk(s, e, first, count) && end == first + count
    requires firstPage == PageOf(first, s.config.pageTokens) && last == PageOf(end - 1, s.config.pageTokens)
    ensures firstPage <= last && Touch(s, e, firstPage, last, WritePlan([], [])).Made?
    ensures var (t, plan) := Touch(s, e, firstPage, last, WritePlan([], [])).value;
      && e in t.executions && firstPage <= |t.executions[e].pages|
      && (forall p :: p in t.executions[e].pages ==> p in t.pages)
      && KvLedger.PrepareWrite(s, e, first, count) == (Settle(t, e, firstPage, end), Written(plan))
  {
    RangeLoop(s, e, firstPage, last, end);
    TouchSucceeds(s, e, firstPage, last, outside);
    RangeCapacity(s, end, last);
    PrepareWriteFields(s, e, first, count, firstPage, last, end);
    var (t, plan) := Touch(s, e, firstPage, last, WritePlan([], [])).value;
    forall p | p in t.executions[e].pages ensures p in t.pages {
      var i: nat :| i < |t.executions[e].pages| && t.executions[e].pages[i] == p;
      HeldPresent(t, e, i, outside, 0);
    }
  }

  /** The two buffers of an accepted capture are granted. */
  lemma CaptureReady(s: Ledger, e: ExecutionId)
    requires BeginCapture(s, e).1.Done?
    ensures e in s.executions && StoreCapture(s, e).Made?
    ensures BeginCapture(s, e) == (StoreCapture(s, e).value.0, Done(StoreCapture(s, e).value.1))
  {
  }

  lemma StorePair(s: Ledger, e: ExecutionId)
    requires e in s.executions && StoreCapture(s, e).Made?
    ensures var local := s.config.SnapshotBytes(s.executions[e].processed);
      && Attempted(s.pool, local, ALIGNMENT).Granted?
      && Attempted(Attempted(s.pool, local, ALIGNMENT).pool, s.config.hiddenBytes, ALIGNMENT).Granted?
  {
  }
}
