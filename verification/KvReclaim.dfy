/** Operations that give state back: erasing checkpoints, aborting captures, releasing
    executions. Each keeps the ledger invariant, so every promise stays covered. */
module KvReclaim {
  import opened FreeRanges
  import opened BytePools
  import opened Totals
  import opened PageMath
  import opened KvLedger
  import opened KvBooks
  import opened KvRecords
  import opened KvInvariant

  lemma {:induction false} ReleaseAllFrame(s: Ledger, ids: seq<PageId>, cs: map<CheckpointId, Checkpoint>,
      es: map<ExecutionId, Execution>)
    ensures ReleaseAll(s.(checkpoints := cs, executions := es), ids)
            == ReleaseAll(s, ids).(checkpoints := cs, executions := es)
    ensures var t := ReleaseAll(s, ids);
      t.checkpoints == s.checkpoints && t.executions == s.executions && t.config == s.config
      && t.nextPage == s.nextPage && t.nextCheckpoint == s.nextCheckpoint
      && t.nextExecution == s.nextExecution && t.copies == s.copies
    decreases |ids|
  {
    if ids != [] {
      var s' := s.(checkpoints := cs, executions := es);
      assert ReleasePage(s', ids[0]) == ReleasePage(s, ids[0]).(checkpoints := cs, executions := es);
      ReleaseAllFrame(ReleasePage(s, ids[0]), ids[1..], cs, es);
    }
  }

  lemma FreeBothBooks(r: Ledger, x: Allocation, y: Allocation, outside: set<Allocation>, charge: nat)
    requires PoolOk(r) && Books(r, multiset{}, outside + {x, y}, charge) && x != y && x !in outside && y !in outside
    ensures PoolOk(FreeBoth(r, x, y)) && Books(FreeBoth(r, x, y), multiset{}, outside, charge)
    ensures Shrinks(r, FreeBoth(r, x, y))
  {
    BooksFree(r, x, multiset{}, outside + {x, y}, charge);
    FreeShrinks(r, x);
    var r1 := r.(pool := Released(r.pool, x));
    assert outside + {x, y} - {x} == outside + {y};
    BooksFree(r1, y, multiset{}, outside + {y}, charge);
    FreeShrinks(r1, y);
    assert outside + {y} - {y} == outside;
    ShrinksTrans(r, r1, FreeBoth(r, x, y));
  }

  /** Records were taken out of a ledger, leaving page references `pages` and allocations `x`
      and `y` to give back. Giving them back is a shrinking step with sound books. */
  lemma GiveBack(t: Ledger, pages: seq<PageId>, x: Allocation, y: Allocation, outside: set<Allocation>, charge: nat)
    requires PoolOk(t) && Books(t, multiset(pages), outside + {x, y}, charge) && x != y
    requires x !in outside && y !in outside
    ensures charge <= FreeBoth(ReleaseAll(t, pages), x, y).indexUsed
    ensures var v := Uncharged(FreeBoth(ReleaseAll(t, pages), x, y), charge);
      PoolOk(v) && Books(v, multiset{}, outside, 0) && Shrinks(t, v)
  {
    BooksReleaseAll(t, pages, multiset(pages), outside + {x, y}, charge);
    ReleaseAllShrinks(t, pages, multiset(pages), outside + {x, y}, charge);
    var r := ReleaseAll(t, pages);
    assert multiset(pages) - multiset(pages) == multiset{};
    FreeBothBooks(r, x, y, outside, charge);
    ShrinksTrans(t, r, FreeBoth(r, x, y));
    Uncharge(FreeBoth(r, x, y), outside, charge);
    ShrinksTrans(t, FreeBoth(r, x, y), Uncharged(FreeBoth(r, x, y), charge));
  }

  function Uncharged(u: Ledger, charge: nat): Ledger { u.(indexUsed := Less(u.indexUsed, charge)) }

  lemma Uncharge(u: Ledger, loose: set<Allocation>, charge: nat)
    requires PoolOk(u) && Books(u, multiset{}, loose, charge)
    ensures charge <= u.indexUsed && Shrinks(u, Uncharged(u, charge))
    ensures PoolOk(Uncharged(u, charge)) && Books(Uncharged(u, charge), multiset{}, loose, 0)
  {
    var v := Uncharged(u, charge);
    RefsSame(u, v, multiset{});
    OwnedSame(u, v, loose);
    forall p ensures Kept(u, v, p) {}
  }

  lemma ShrinksRecords(s: Ledger, t: Ledger, u: Ledger)
    requires t.config == s.config && t.pages == s.pages && t.pool == s.pool && t.indexUsed == s.indexUsed
    requires Shrinks(t, u)
    ensures Shrinks(s, u)
  {
    forall p ensures Kept(s, u, p) { assert Kept(t, u, p); }
  }

  // ------------------------------------------------------------------ checkpoints

  lemma EraseCheckpointInv(s: Ledger, c: CheckpointId, outside: set<Allocation>)
    requires Inv(s, outside, 0) && c in s.checkpoints && Idle(s.checkpoints[c])
    ensures Inv(EraseCheckpoint(s, c), outside, 0) && Shrinks(s, EraseCheckpoint(s, c))
  {
    var x := s.checkpoints[c];
    var t := s.(checkpoints := s.checkpoints - {c});
    BooksDropCheckpoint(s, c, multiset{}, outside, 0);
    assert multiset{} + multiset(x.pages) == multiset(x.pages);
    var charge := CheckpointBytes(|x.pages|);
    GiveBack(t, x.pages, x.snapshot, x.hidden, outside, charge);
    ReleaseAllFrame(s, x.pages, t.checkpoints, t.executions);
    ReleaseAllFrame(t, x.pages, t.checkpoints, t.executions);
    var s' := EraseCheckpoint(s, c);
    ShrinksRecords(s, t, s');
    assert CheckpointShape(s, c);
    forall k ensures ExecutionKept(s, s', k) {}
    forall k ensures SourceOk(s', k) {
      assert ExecutionShape(s, k, 0);
      if k in s.executions { SumBounds(s.executions, Borrows(c), k); }
    }
    forall d ensures CheckpointKept(s, s', d) {}
    forall d ensures BorrowersOk(s', d) {
      assert CheckpointShape(s, d);
    }
    InvShrinks(s, s', outside);
  }

  /** Eviction, by whatever policy, keeps the invariant and never touches borrowed, pinned or
      protected checkpoints. */
  lemma EvictIdleInv(s: Ledger, protect: CheckpointId, cause: Cause, select: Selector, outside: set<Allocation>)
    requires Inv(s, outside, 0) && EvictIdle(s, protect, cause, select).Made?
    ensures var s' := EvictIdle(s, protect, cause, select).value;
      && Inv(s', outside, 0) && Shrinks(s, s')
      && s'.executions == s.executions
      && exists c :: c in s.checkpoints && Idle(s.checkpoints[c]) && c != protect
                     && s'.checkpoints == s.checkpoints - {c}
  {
    var victim := select(protect, Eligible(s, protect), cause);
    EraseCheckpointInv(s, victim, outside);
    ReleaseAllFrame(s, s.checkpoints[victim].pages, s.checkpoints, s.executions);
  }

  // --------------------------------------------------------------------- captures

  ghost predicate RecordsKept(s: Ledger, s': Ledger) {
    && (forall k :: ExecutionKept(s, s', k)) && (forall k :: SourceOk(s', k))
    && (forall c :: CheckpointKept(s, s', c)) && (forall c :: BorrowersOk(s', c))
  }

  lemma ClearCaptureRecords(s: Ledger, s': Ledger, e: ExecutionId)
    requires Shape(s, 0) && e in s.executions && s'.checkpoints == s.checkpoints
    requires s'.executions == s.executions[e := s.executions[e].(capture := NoCapture)]
    ensures RecordsKept(s, s')
  {
    forall k ensures ExecutionKept(s, s', k) && SourceOk(s', k) { assert ExecutionShape(s, k, 0); }
    forall c ensures CheckpointKept(s, s', c) && BorrowersOk(s', c) {
      assert CheckpointShape(s, c);
      SumPut(s.executions, Borrows(c), e, s'.executions[e]);
    }
  }

  lemma AbortCaptureInv(s: Ledger, e: ExecutionId, outside: set<Allocation>)
    requires Inv(s, outside, 0) && e in s.executions
    ensures Inv(AbortCapture(s, e), outside, 0) && Shrinks(s, AbortCapture(s, e))
    ensures var s' := AbortCapture(s, e);
      s'.executions == s.executions[e := s.executions[e].(capture := NoCapture)] && s'.checkpoints == s.checkpoints
  {
    var x := s.executions[e];
    var s' := AbortCapture(s, e);
    if x.capture.NoCapture? {
      assert x.(capture := NoCapture) == x;
      assert s.executions[e := x] == s.executions;
      forall p ensures Kept(s, s, p) {}
    } else {
      var t := s.(executions := s.executions[e := x.(capture := NoCapture)]);
      BooksClearCapture(s, e, multiset{}, outside, 0);
      assert multiset{} + multiset(x.pages) == multiset(x.pages);
      GiveBack(t, x.pages, x.capture.snapshot, x.capture.hidden, outside, CheckpointBytes(|x.pages|));
      ReleaseAllFrame(s, x.pages, t.checkpoints, t.executions);
      ReleaseAllFrame(t, x.pages, t.checkpoints, t.executions);
      ShrinksRecords(s, t, s');
      ClearCaptureRecords(s, s', e);
      InvShrinks(s, s', outside);
    }
  }

  // ------------------------------------------------------------------- executions

  function Unborrowed(checkpoints: map<CheckpointId, Checkpoint>, source: CheckpointId): map<CheckpointId, Checkpoint> {
    if source in checkpoints
    then checkpoints[source := checkpoints[source].(borrowers := Less(checkpoints[source].borrowers, 1))]
    else checkpoints
  }

  lemma DropExecutionRecords(s: Ledger, s': Ledger, e: ExecutionId)
    requires Shape(s, 0) && e in s.executions && s'.executions == s.executions - {e}
    requires s'.checkpoints == Unborrowed(s.checkpoints, s.executions[e].source)
    ensures RecordsKept(s, s')
  {
    forall k ensures ExecutionKept(s, s', k) && SourceOk(s', k) { assert ExecutionShape(s, k, 0); }
    forall c ensures CheckpointKept(s, s', c) && BorrowersOk(s', c) {
      assert CheckpointShape(s, c);
      SumRemove(s.executions, Borrows(c), e);
    }
  }

  lemma BooksUnborrow(v: Ledger, source: CheckpointId, outside: set<Allocation>)
    requires Books(v, multiset{}, outside, 0)
    ensures Books(v.(checkpoints := Unborrowed(v.checkpoints, source)), multiset{}, outside, 0)
  {
    if source in v.checkpoints {
      BooksEditCheckpoint(v, source, Unborrowed(v.checkpoints, source)[source], multiset{}, outside, 0);
    }
  }

  /** Taking out the record of an execution without a capture, and giving back what it held. */
  lemma DropExecution(a: Ledger, e: ExecutionId, outside: set<Allocation>)
    requires Inv(a, outside, 0) && e in a.executions && a.executions[e].capture.NoCapture?
    ensures var s' := Dropped(a, e);
      Inv(s', outside, 0) && Shrinks(a, s') && s'.executions == a.executions - {e}
  {
    var x := a.executions[e];
    var t := a.(executions := a.executions - {e});
    BuffersBack(a, e, outside);
    ReleaseAllFrame(t, x.pages, t.checkpoints, t.executions);
    var v := Uncharged(FreeBoth(ReleaseAll(t, x.pages), x.ring, x.table), a.config.ExecutionBytes());
    var s' := v.(checkpoints := Unborrowed(a.checkpoints, x.source));
    BooksUnborrow(v, x.source, outside);
    ShrinksRecords(a, t, v);
    ShrinksRecordsAfter(a, v, s');
    DropExecutionRecords(a, s', e);
    InvShrinks(a, s', outside);
  }

  /** The record of `e` gone, its pages and buffers can be given back. */
  lemma BuffersBack(a: Ledger, e: ExecutionId, outside: set<Allocation>)
    requires Inv(a, outside, 0) && e in a.executions && a.executions[e].capture.NoCapture?
    ensures var x, t := a.executions[e], a.(executions := a.executions - {e});
      var freed := FreeBoth(ReleaseAll(t, x.pages), x.ring, x.table);
      && a.config.ExecutionBytes() <= freed.indexUsed
      && var v := Uncharged(freed, a.config.ExecutionBytes());
        PoolOk(v) && Books(v, multiset{}, outside, 0) && Shrinks(t, v)
  {
    var x := a.executions[e];
    BooksDropExecution(a, e, multiset{}, outside, 0);
    assert multiset{} + multiset(x.pages) == multiset(x.pages);
    assert OwnerOk(a, outside, RingOf(e)) && OwnerOk(a, outside, TableOf(e));
    GiveBack(a.(executions := a.executions - {e}), x.pages, x.ring, x.table, outside, a.config.ExecutionBytes());
  }

  lemma ShrinksRecordsAfter(s: Ledger, t: Ledger, u: Ledger)
    requires u.config == t.config && u.pages == t.pages && u.pool == t.pool && u.indexUsed == t.indexUsed
    requires Shrinks(s, t)
    ensures Shrinks(s, u)
  {
    forall p ensures Kept(s, u, p) { assert Kept(s, t, p); }
  }

  /** The ledger after the record of `e` is taken out and all it held is given back. */
  function Dropped(a: Ledger, e: ExecutionId): Ledger
    requires e in a.executions
  {
    var x := a.executions[e];
    var t := a.(executions := a.executions - {e});
    var v := Uncharged(FreeBoth(ReleaseAll(t, x.pages), x.ring, x.table), a.config.ExecutionBytes());
    v.(checkpoints := Unborrowed(a.checkpoints, x.source))
  }

  lemma ReleaseExecutionDrops(s: Ledger, e: ExecutionId)
    requires e in s.executions && e in AbortCapture(s, e).executions
    requires AbortCapture(s, e).executions == s.executions[e := s.executions[e].(capture := NoCapture)]
    requires AbortCapture(s, e).checkpoints == s.checkpoints && AbortCapture(s, e).config == s.config
    ensures ReleaseExecution(s, e).0 == Dropped(AbortCapture(s, e), e)
  {
    var a := AbortCapture(s, e);
    var x := a.executions[e];
    var t := a.(executions := a.executions - {e});
    ReleaseAllFrame(a, x.pages, t.checkpoints, t.executions);
    ReleaseAllFrame(t, x.pages, t.checkpoints, t.executions);
    assert a.executions - {e} == s.executions - {e};
  }

  /** Releasing an execution returns all it held: its capture, pages, buffers and borrow. */
  lemma ReleaseExecutionInv(s: Ledger, e: ExecutionId, outside: set<Allocation>)
    requires Inv(s, outside, 0) && e in s.executions
    ensures Inv(ReleaseExecution(s, e).0, outside, 0) && Shrinks(s, ReleaseExecution(s, e).0)
    ensures var s' := ReleaseExecution(s, e).0;
      s'.executions == s.executions - {e}
      && s'.checkpoints == Unborrowed(s.checkpoints, s.executions[e].source)
  {
    AbortCaptureInv(s, e, outside);
    var a := AbortCapture(s, e);
    ReleaseExecutionDrops(s, e);
    DropExecution(a, e, outside);
    assert a.executions - {e} == s.executions - {e};
    ShrinksTrans(s, a, Dropped(a, e));
  }

  // ------------------------------------------------------------------------- pins

  function Repinned(s: Ledger, c: CheckpointId, pins: nat): Ledger
    requires c in s.checkpoints
  {
    s.(checkpoints := s.checkpoints[c := s.checkpoints[c].(pins := pins)])
  }

  lemma PinIs(s: Ledger, c: CheckpointId, pins: nat)
    requires c in s.checkpoints && pins == s.checkpoints[c].pins + 1
    ensures Pin(s, c) == (Repinned(s, c, pins), Done(()))
  {
  }

  lemma UnpinIs(s: Ledger, c: CheckpointId, pins: nat)
    requires c in s.checkpoints && pins + 1 == s.checkpoints[c].pins
    ensures Unpin(s, c) == (Repinned(s, c, pins), Done(()))
  {
  }

  lemma RepinInv(s: Ledger, c: CheckpointId, pins: nat, outside: set<Allocation>)
    requires Inv(s, outside, 0) && c in s.checkpoints
    ensures Inv(Repinned(s, c, pins), outside, 0)
  {
    var s' := Repinned(s, c, pins);
    BooksEditCheckpoint(s, c, s'.checkpoints[c], multiset{}, outside, 0);
    forall p ensures Kept(s, s', p) {}
    forall k ensures ExecutionKept(s, s', k) {}
    forall k ensures SourceOk(s', k) {
      assert ExecutionShape(s, k, 0);
    }
    forall d ensures CheckpointKept(s, s', d) {}
    forall d ensures BorrowersOk(s', d) {
      assert CheckpointShape(s, d);
    }
    InvShrinks(s, s', outside);
  }

  // ----------------------------------------------------------- caller allocations

  lemma ReleaseOutsideInv(s: Ledger, x: Allocation, outside: set<Allocation>)
    requires Inv(s, outside, 0) && x in outside
    ensures Inv(ReleaseOutside(s, x), outside - {x}, 0)
  {
    BooksFree(s, x, multiset{}, outside, 0);
    FreeShrinks(s, x);
    var s' := ReleaseOutside(s, x);
    InvShrinksOutside(s, s', outside - {x});
  }

  lemma InvShrinksOutside(s: Ledger, s': Ledger, outside: set<Allocation>)
    requires Shape(s, 0) && HasRoom(s) && Shrinks(s, s') && PoolOk(s') && Books(s', multiset{}, outside, 0)
    requires s'.executions == s.executions && s'.checkpoints == s.checkpoints
    ensures Inv(s', outside, 0)
  {
    forall k ensures ExecutionKept(s, s', k) {}
    forall k ensures SourceOk(s', k) {
      assert ExecutionShape(s, k, 0);
    }
    forall d ensures CheckpointKept(s, s', d) {}
    forall d ensures BorrowersOk(s', d) {
      assert CheckpointShape(s, d);
    }
    ShapeShrinks(s, s', outside);
    RoomShrinks(s, s');
  }

  /** Caller allocations only happen while no execution has a promise to break. */
  lemma AllocateOutsideInv(s: Ledger, bytes: nat, alignment: nat, outside: set<Allocation>)
    requires Inv(s, outside, 0) && AllocateOutside(s, bytes, alignment).1.Done?
    ensures var (s', result) := AllocateOutside(s, bytes, alignment);
      result.value !in outside && Inv(s', outside + {result.value}, 0)
  {
    var (s', result) := AllocateOutside(s, bytes, alignment);
    BooksAllocate(s, bytes, alignment, multiset{}, outside, 0);
    SumZero(s.executions, Reservation(s));
    SumZero(s'.executions, Reservation(s'));
    forall k ensures ExecutionShape(s', k, 0) { assert ExecutionShape(s, k, 0); }
    forall c ensures CheckpointShape(s', c) {
      assert CheckpointShape(s, c);
      if c in s.checkpoints {
      forall i: nat ensures PageAt(s', s'.checkpoints[c].pages, s'.checkpoints[c].processed, i) {
        assert PageAt(s, s.checkpoints[c].pages, s.checkpoints[c].processed, i);
      }
      }
    }
    forall p ensures PageShape(s', p) { assert PageShape(s, p); }
  }
}
