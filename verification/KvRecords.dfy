/** How the books change when execution and checkpoint records come, change and go. */
module KvRecords {
  import opened FreeRanges
  import opened BytePools
  import opened Totals
  import opened PageMath
  import opened KvLedger
  import opened KvBooks

  // ------------------------------------------------------------------ references

  predicate SamePages(s: Ledger, s': Ledger) {
    s'.pages == s.pages && s'.config == s.config && s'.pool == s.pool
  }

  ghost predicate Shifts(debt: multiset<PageId>, before: multiset<PageId>, debt': multiset<PageId>,
      after: multiset<PageId>) {
    forall p :: ShiftAt(debt, before, debt', after, p)
  }

  predicate ShiftAt(debt: multiset<PageId>, before: multiset<PageId>, debt': multiset<PageId>, after: multiset<PageId>,
      p: PageId) {
    debt'[p] + after[p] == debt[p] + before[p]
  }

  function UseSet(x: Execution): multiset<PageId> {
    if x.capture.Capture? then multiset(x.pages) + multiset(x.pages) else multiset(x.pages)
  }

  lemma RefsPutExecution(s: Ledger, s': Ledger, k: ExecutionId, x: Execution, debt: multiset<PageId>,
      debt': multiset<PageId>)
    requires Refs(s, debt) && s'.pages == s.pages && s'.checkpoints == s.checkpoints
    requires s'.executions == s.executions[k := x]
    requires Shifts(debt, if k in s.executions then UseSet(s.executions[k]) else multiset{}, debt', UseSet(x))
    ensures Refs(s', debt')
  {
    forall p ensures RefAt(s', debt', p) {
      assert RefAt(s, debt, p);
      assert ShiftAt(debt, if k in s.executions then UseSet(s.executions[k]) else multiset{}, debt', UseSet(x), p);
      SumPut(s.executions, UsesOf(p), k, x);
      assert Uses(x, p) == UseSet(x)[p];
    }
  }

  lemma RefsDropExecution(s: Ledger, s': Ledger, k: ExecutionId, debt: multiset<PageId>)
    requires Refs(s, debt) && s'.pages == s.pages && s'.checkpoints == s.checkpoints && k in s.executions
    requires s'.executions == s.executions - {k}
    ensures Refs(s', debt + UseSet(s.executions[k]))
  {
    forall p ensures RefAt(s', debt + UseSet(s.executions[k]), p) {
      assert RefAt(s, debt, p);
      SumRemove(s.executions, UsesOf(p), k);
      assert Uses(s.executions[k], p) == UseSet(s.executions[k])[p];
    }
  }

  lemma RefsPutCheckpoint(s: Ledger, s': Ledger, c: CheckpointId, x: Checkpoint, debt: multiset<PageId>,
      debt': multiset<PageId>)
    requires Refs(s, debt) && s'.pages == s.pages && s'.executions == s.executions
    requires s'.checkpoints == s.checkpoints[c := x]
    requires Shifts(debt, if c in s.checkpoints then multiset(s.checkpoints[c].pages)
      else multiset{}, debt', multiset(x.pages))
    ensures Refs(s', debt')
  {
    forall p ensures RefAt(s', debt', p) {
      assert RefAt(s, debt, p);
      assert ShiftAt(debt, if c in s.checkpoints then multiset(s.checkpoints[c].pages)
          else multiset{}, debt', multiset(x.pages), p);
      SumPut(s.checkpoints, HeldBy(p), c, x);
    }
  }

  lemma RefsDropCheckpoint(s: Ledger, s': Ledger, c: CheckpointId, debt: multiset<PageId>)
    requires Refs(s, debt) && s'.pages == s.pages && s'.executions == s.executions && c in s.checkpoints
    requires s'.checkpoints == s.checkpoints - {c}
    ensures Refs(s', debt + multiset(s.checkpoints[c].pages))
  {
    forall p ensures RefAt(s', debt + multiset(s.checkpoints[c].pages), p) {
      assert RefAt(s, debt, p);
      SumRemove(s.checkpoints, HeldBy(p), c);
    }
  }

  // ------------------------------------------------------------------- executions

  lemma PairValues(o: Owner, x: Allocation, q: Owner, y: Allocation)
    requires o != q
    ensures map[o := x, q := y].Values == {x, y}
  {
    var m := map[o := x, q := y];
    assert o in m && q in m && m[o] == x && m[q] == y;
  }

  lemma OwnedNewExecution(s: Ledger, s': Ledger, id: ExecutionId, x: Execution, loose: set<Allocation>)
    requires Owned(s, loose) && SamePages(s, s') && s'.checkpoints == s.checkpoints
    requires id !in s.executions && s'.executions == s.executions[id := x] && x.capture.NoCapture?
    requires x.ring in loose && x.table in loose && x.ring != x.table
    ensures Owned(s', loose - {x.ring, x.table})
  {
    PairValues(RingOf(id), x.ring, TableOf(id), x.table);
    OwnedTake(s, s', loose, map[RingOf(id) := x.ring, TableOf(id) := x.table]);
  }

  lemma OwnedDropExecution(s: Ledger, s': Ledger, id: ExecutionId, loose: set<Allocation>)
    requires Owned(s, loose) && SamePages(s, s') && s'.checkpoints == s.checkpoints
    requires id in s.executions && s'.executions == s.executions - {id} && s.executions[id].capture.NoCapture?
    ensures var x := s.executions[id]; x.ring != x.table && Owned(s', loose + {x.ring, x.table})
  {
    var x := s.executions[id];
    PairValues(RingOf(id), x.ring, TableOf(id), x.table);
    OwnedGive(s, s', loose, map[RingOf(id) := x.ring, TableOf(id) := x.table]);
    assert !Clash(s, RingOf(id), TableOf(id));
  }

  lemma OwnedSetCapture(s: Ledger, s': Ledger, id: ExecutionId, x: Execution, loose: set<Allocation>)
    requires Owned(s, loose) && SamePages(s, s') && s'.checkpoints == s.checkpoints
    requires id in s.executions && s.executions[id].capture.NoCapture? && x.capture.Capture?
    requires s'.executions == s.executions[id := x] && x.ring == s.executions[id].ring
      && x.table == s.executions[id].table
    requires x.capture.snapshot in loose && x.capture.hidden in loose && x.capture.snapshot != x.capture.hidden
    ensures Owned(s', loose - {x.capture.snapshot, x.capture.hidden})
  {
    PairValues(CaptureSnapshot(id), x.capture.snapshot, CaptureHidden(id), x.capture.hidden);
    OwnedTake(s, s', loose, map[CaptureSnapshot(id) := x.capture.snapshot, CaptureHidden(id) := x.capture.hidden]);
  }

  lemma OwnedClearCapture(s: Ledger, s': Ledger, id: ExecutionId, x: Execution, loose: set<Allocation>)
    requires Owned(s, loose) && SamePages(s, s') && s'.checkpoints == s.checkpoints
    requires id in s.executions && s.executions[id].capture.Capture? && x.capture.NoCapture?
    requires s'.executions == s.executions[id := x] && x.ring == s.executions[id].ring
      && x.table == s.executions[id].table
    ensures var c := s.executions[id].capture;
      c.snapshot != c.hidden && Owned(s', loose + {c.snapshot, c.hidden})
      && c.snapshot !in loose && c.hidden !in loose
  {
    var c := s.executions[id].capture;
    PairValues(CaptureSnapshot(id), c.snapshot, CaptureHidden(id), c.hidden);
    OwnedGive(s, s', loose, map[CaptureSnapshot(id) := c.snapshot, CaptureHidden(id) := c.hidden]);
    assert Stored(s, CaptureSnapshot(id)) == Holding(c.snapshot);
    assert !Clash(s, CaptureSnapshot(id), CaptureHidden(id));
  }

  lemma OwnedSameExecution(s: Ledger, s': Ledger, id: ExecutionId, x: Execution, loose: set<Allocation>)
    requires Owned(s, loose) && SamePages(s, s') && s'.checkpoints == s.checkpoints && id in s.executions
    requires s'.executions == s.executions[id := x] && x.ring == s.executions[id].ring
      && x.table == s.executions[id].table
    requires x.capture == s.executions[id].capture
    ensures Owned(s', loose)
  {
    OwnedSame(s, s', loose);
  }

  lemma OwnedNewCheckpoint(s: Ledger, s': Ledger, c: CheckpointId, x: Checkpoint, loose: set<Allocation>)
    requires Owned(s, loose) && SamePages(s, s') && s'.executions == s.executions
    requires c !in s.checkpoints && s'.checkpoints == s.checkpoints[c := x]
    requires x.snapshot in loose && x.hidden in loose && x.snapshot != x.hidden
    ensures Owned(s', loose - {x.snapshot, x.hidden})
  {
    PairValues(Snapshot(c), x.snapshot, Hidden(c), x.hidden);
    OwnedTake(s, s', loose, map[Snapshot(c) := x.snapshot, Hidden(c) := x.hidden]);
  }

  lemma OwnedDropCheckpoint(s: Ledger, s': Ledger, c: CheckpointId, loose: set<Allocation>)
    requires Owned(s, loose) && SamePages(s, s') && s'.executions == s.executions
    requires c in s.checkpoints && s'.checkpoints == s.checkpoints - {c}
    ensures var x := s.checkpoints[c];
      x.snapshot != x.hidden && x.snapshot !in loose && x.hidden !in loose && Owned(s', loose + {x.snapshot, x.hidden})
  {
    var x := s.checkpoints[c];
    PairValues(Snapshot(c), x.snapshot, Hidden(c), x.hidden);
    OwnedGive(s, s', loose, map[Snapshot(c) := x.snapshot, Hidden(c) := x.hidden]);
    assert Stored(s, Snapshot(c)) == Holding(x.snapshot);
    assert !Clash(s, Snapshot(c), Hidden(c));
  }

  lemma OwnedSameCheckpoint(s: Ledger, s': Ledger, c: CheckpointId, x: Checkpoint, loose: set<Allocation>)
    requires Owned(s, loose) && SamePages(s, s') && s'.executions == s.executions && c in s.checkpoints
    requires s'.checkpoints == s.checkpoints[c := x]
    requires x.snapshot == s.checkpoints[c].snapshot && x.hidden == s.checkpoints[c].hidden
    ensures Owned(s', loose)
  {
    OwnedSame(s, s', loose);
  }

  // ------------------------------------------------------------------------- charges

  function ChargeAt(s: Ledger, k: ExecutionId): nat {
    if k in s.executions then ExecutionBytes(s.config, s.executions[k]) else 0
  }

  lemma IndexPutExecution(s: Ledger, s': Ledger, k: ExecutionId, x: Execution, charge: nat, charge': nat)
    requires Index(s, charge) && SamePages(s, s') && s'.checkpoints == s.checkpoints && s'.indexUsed == s.indexUsed
    requires s'.executions == s.executions[k := x]
    requires charge' + ExecutionBytes(s.config, x) == charge + ChargeAt(s, k)
    ensures Index(s', charge')
  {
    SumPut(s.executions, ExecutionCharge(s.config), k, x);
  }

  lemma IndexPutCheckpoint(s: Ledger, s': Ledger, c: CheckpointId, x: Checkpoint, charge: nat, charge': nat)
    requires Index(s, charge) && SamePages(s, s') && s'.executions == s.executions && s'.indexUsed == s.indexUsed
    requires s'.checkpoints == s.checkpoints[c := x]
    requires charge' + CheckpointBytes(|x.pages|) ==
               charge + (if c in s.checkpoints then CheckpointBytes(|s.checkpoints[c].pages|) else 0)
    ensures Index(s', charge')
  {
    SumPut(s.checkpoints, CheckpointCharge(), c, x);
  }

  // ------------------------------------------------------------------------- books

  lemma IdsNext(s: Ledger, s': Ledger)
    requires Ids(s) && s'.pages == s.pages && s'.nextPage == s.nextPage
    requires s'.nextExecution >= s.nextExecution && s'.nextCheckpoint >= s.nextCheckpoint
    requires forall e :: e in s'.executions ==> e in s.executions || 0 < e < s'.nextExecution
    requires forall c :: c in s'.checkpoints ==> c in s.checkpoints || 0 < c < s'.nextCheckpoint
    ensures Ids(s')
  {
  }

  lemma BooksNewExecution(s: Ledger, x: Execution, debt: multiset<PageId>, loose: set<Allocation>, charge: nat)
    requires Books(s, debt + multiset(x.pages), loose, charge + s.config.ExecutionBytes()) && x.capture.NoCapture?
    requires x.ring in loose && x.table in loose && x.ring != x.table
    ensures Books(s.(executions := s.executions[s.nextExecution := x], nextExecution := s.nextExecution + 1),
                  debt, loose - {x.ring, x.table}, charge)
  {
    var s' := s.(executions := s.executions[s.nextExecution := x], nextExecution := s.nextExecution + 1);
    assert s.nextExecution !in s.executions;
    IdsNext(s, s');
    RefsPutExecution(s, s', s.nextExecution, x, debt + multiset(x.pages), debt);
    OwnedNewExecution(s, s', s.nextExecution, x, loose);
    IndexPutExecution(s, s', s.nextExecution, x, charge + s.config.ExecutionBytes(), charge);
  }

  lemma BooksDropExecution(s: Ledger, e: ExecutionId, debt: multiset<PageId>, loose: set<Allocation>, charge: nat)
    requires Books(s, debt, loose, charge) && e in s.executions && s.executions[e].capture.NoCapture?
    ensures var x := s.executions[e];
      x.ring != x.table &&
      Books(s.(executions := s.executions - {e}), debt + multiset(x.pages), loose + {x.ring, x.table},
            charge + s.config.ExecutionBytes())
  {
    var x := s.executions[e];
    var s' := s.(executions := s.executions - {e});
    RefsDropExecution(s, s', e, debt);
    OwnedDropExecution(s, s', e, loose);
    SumRemove(s.executions, ExecutionCharge(s.config), e);
  }

  lemma BooksSetCapture(s: Ledger, e: ExecutionId, capture: Capture, debt: multiset<PageId>, loose: set<Allocation>,
      charge: nat)
    requires e in s.executions && s.executions[e].capture.NoCapture? && capture.Capture?
    requires Books(s, debt + multiset(s.executions[e].pages), loose, charge + CheckpointBytes(|s.executions[e].pages|))
    requires capture.snapshot in loose && capture.hidden in loose && capture.snapshot != capture.hidden
    ensures Books(s.(executions := s.executions[e := s.executions[e].(capture := capture)]),
                  debt, loose - {capture.snapshot, capture.hidden}, charge)
  {
    var x := s.executions[e].(capture := capture);
    var s' := s.(executions := s.executions[e := x]);
    RefsPutExecution(s, s', e, x, debt + multiset(x.pages), debt);
    OwnedSetCapture(s, s', e, x, loose);
    IndexPutExecution(s, s', e, x, charge + CheckpointBytes(|x.pages|), charge);
  }

  lemma BooksClearCapture(s: Ledger, e: ExecutionId, debt: multiset<PageId>, loose: set<Allocation>, charge: nat)
    requires Books(s, debt, loose, charge) && e in s.executions && s.executions[e].capture.Capture?
    ensures var x := s.executions[e];
      && x.capture.snapshot != x.capture.hidden && x.capture.snapshot !in loose && x.capture.hidden !in loose
      && Books(s.(executions := s.executions[e := x.(capture := NoCapture)]), debt + multiset(x.pages),
               loose + {x.capture.snapshot, x.capture.hidden}, charge + CheckpointBytes(|x.pages|))
  {
    var x := s.executions[e].(capture := NoCapture);
    var s' := s.(executions := s.executions[e := x]);
    RefsPutExecution(s, s', e, x, debt, debt + multiset(x.pages));
    OwnedClearCapture(s, s', e, x, loose);
    IndexPutExecution(s, s', e, x, charge, charge + CheckpointBytes(|x.pages|));
  }

  /** An execution record changes its page table, length or limit, but not its buffers. */
  lemma BooksEditExecution(s: Ledger, e: ExecutionId, x: Execution, debt: multiset<PageId>, debt': multiset<PageId>,
      loose: set<Allocation>, charge: nat)
    requires Books(s, debt, loose, charge) && e in s.executions
    requires x.ring == s.executions[e].ring && x.table == s.executions[e].table && x.capture == s.executions[e].capture
    requires x.capture.NoCapture? || x.pages == s.executions[e].pages
    requires Shifts(debt, UseSet(s.executions[e]), debt', UseSet(x))
    ensures Books(s.(executions := s.executions[e := x]), debt', loose, charge)
  {
    var s' := s.(executions := s.executions[e := x]);
    RefsPutExecution(s, s', e, x, debt, debt');
    OwnedSameExecution(s, s', e, x, loose);
    IndexPutExecution(s, s', e, x, charge, charge);
  }

  lemma BooksNewCheckpoint(s: Ledger, x: Checkpoint, debt: multiset<PageId>, loose: set<Allocation>, charge: nat)
    requires Books(s, debt + multiset(x.pages), loose, charge + CheckpointBytes(|x.pages|))
    requires x.snapshot in loose && x.hidden in loose && x.snapshot != x.hidden
    ensures Books(s.(checkpoints := s.checkpoints[s.nextCheckpoint := x], nextCheckpoint := s.nextCheckpoint + 1),
                  debt, loose - {x.snapshot, x.hidden}, charge)
  {
    var s' := s.(checkpoints := s.checkpoints[s.nextCheckpoint := x], nextCheckpoint := s.nextCheckpoint + 1);
    assert s.nextCheckpoint !in s.checkpoints;
    IdsNext(s, s');
    RefsPutCheckpoint(s, s', s.nextCheckpoint, x, debt + multiset(x.pages), debt);
    OwnedNewCheckpoint(s, s', s.nextCheckpoint, x, loose);
    IndexPutCheckpoint(s, s', s.nextCheckpoint, x, charge + CheckpointBytes(|x.pages|), charge);
  }

  lemma BooksDropCheckpoint(s: Ledger, c: CheckpointId, debt: multiset<PageId>, loose: set<Allocation>, charge: nat)
    requires Books(s, debt, loose, charge) && c in s.checkpoints
    ensures var x := s.checkpoints[c];
      && x.snapshot != x.hidden && x.snapshot !in loose && x.hidden !in loose
      && Books(s.(checkpoints := s.checkpoints - {c}), debt + multiset(x.pages), loose + {x.snapshot, x.hidden},
               charge + CheckpointBytes(|x.pages|))
  {
    var s' := s.(checkpoints := s.checkpoints - {c});
    RefsDropCheckpoint(s, s', c, debt);
    OwnedDropCheckpoint(s, s', c, loose);
    SumRemove(s.checkpoints, CheckpointCharge(), c);
  }

  /** A checkpoint record changes its borrowers or pins only. */
  lemma BooksEditCheckpoint(s: Ledger, c: CheckpointId, x: Checkpoint, debt: multiset<PageId>, loose: set<Allocation>,
      charge: nat)
    requires Books(s, debt, loose, charge) && c in s.checkpoints
    requires x.snapshot == s.checkpoints[c].snapshot && x.hidden == s.checkpoints[c].hidden
      && x.pages == s.checkpoints[c].pages
    ensures Books(s.(checkpoints := s.checkpoints[c := x]), debt, loose, charge)
  {
    var s' := s.(checkpoints := s.checkpoints[c := x]);
    RefsPutCheckpoint(s, s', c, x, debt, debt);
    OwnedSameCheckpoint(s, s', c, x, loose);
    IndexPutCheckpoint(s, s', c, x, charge, charge);
  }
}
