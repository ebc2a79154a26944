/** Writes by admitted executions: an in-limit write always finds its pages, touches only
    private ones, and keeps the ledger invariant. */
module KvWrites {
  import opened FreeRanges
  import opened BytePools
  import opened Totals
  import opened PageMath
  import opened KvLedger
  import opened KvBooks
  import opened KvRecords
  import opened KvInvariant
  import opened KvReclaim
  import opened KvAdmission

  // -------------------------------------------------------------- page creation

  /** One promised page is always there, and creating it uses up exactly one promise. */
  lemma CreateSucceeds(s: Ledger, firstToken: nat)
    requires PoolOk(s) && HasRoom(s) && Reserved(s) > 0
    ensures CreatePage(s, firstToken).Made?
    ensures var (s', p) := CreatePage(s, firstToken).value;
      && Fits(s') == Fits(s) - 1 && s'.indexUsed == s.indexUsed + PAGE_INFO_BYTES
      && s'.config == s.config && s'.executions == s.executions && s'.checkpoints == s.checkpoints
      && p == s.nextPage && p in s'.pages && s'.pages == s.pages[p := s'.pages[p]]
      && s'.pages[p].references == 1 && s'.pages[p].firstToken == firstToken && s'.pages[p].validTokens == 0
      && s'.pages[p].storage.bytes == s.config.pageBytes
  {
    AlignmentOk();
    TakeUniform(s.pool.free, s.config.pageBytes, ALIGNMENT, 0, s.pool.capacity);
  }

  lemma BooksEditPage(s: Ledger, p: PageId, page: Page, debt: multiset<PageId>, loose: set<Allocation>, charge: nat)
    requires PoolOk(s) && Books(s, debt, loose, charge) && p in s.pages
    requires page.storage == s.pages[p].storage && page.references == s.pages[p].references
    ensures PoolOk(s.(pages := s.pages[p := page])) && Books(s.(pages := s.pages[p := page]), debt, loose, charge)
  {
    var s' := s.(pages := s.pages[p := page]);
    SameKeys(s.pages, s'.pages);
    OwnedSameStorage(s, s', loose);
    forall q ensures RefAt(s', debt, q) { assert RefAt(s, debt, q); }
  }

  // ------------------------------------------------------------ effect of a write

  /** Only execution `e`'s page table changes; every page of `s` stays as it was. */
  ghost predicate OnlyTable(s: Ledger, s': Ledger, e: ExecutionId) {
    && e in s.executions && e in s'.executions
    && s'.executions == s.executions[e := s.executions[e].(pages := s'.executions[e].pages)]
    && s'.checkpoints == s.checkpoints
    && PagesStay(s, s')
  }

  lemma OnlyTableTrans(s: Ledger, t: Ledger, u: Ledger, e: ExecutionId)
    requires OnlyTable(s, t, e) && OnlyTable(t, u, e)
    ensures OnlyTable(s, u, e)
  {
    forall p ensures PageStays(s, u, p) { assert PageStays(s, t, p) && PageStays(t, u, p); }
    assert u.executions[e].(pages := u.executions[e].pages) == u.executions[e];
  }

  /** Shapes of the records a write does not touch. */
  lemma OnlyTableShape(s: Ledger, s': Ledger, e: ExecutionId, growing: ExecutionId)
    requires Shape(s, growing) && Ids(s) && OnlyTable(s, s', e) && (growing == 0 || growing == e)
    requires ExecutionShape(s', e, e)
    requires forall p :: p in s'.pages && p !in s.pages ==> PageShape(s', p)
    ensures Shape(s', e)
  {
    forall k ensures ExecutionShape(s', k, e) {
      assert ExecutionShape(s, k, growing);
      if k in s.executions && k != e {
        TableStays(s, s', s.executions[k].pages, s.executions[k].processed);
      }
    }
    forall c ensures CheckpointShape(s', c) {
      assert CheckpointShape(s, c);
      SumPut(s.executions, Borrows(c), e, s'.executions[e]);
      CheckpointShapeStays(s, s', c);
    }
    forall p ensures PageShape(s', p) {
      assert PageShape(s, p) && PageStays(s, s', p);
    }
  }

  /** While a write is under way the reservation of `e` falls by one for each page it gets. */
  lemma OnlyTableReserved(s: Ledger, s': Ledger, e: ExecutionId)
    requires OnlyTable(s, s', e)
    requires ReservedOf(s', s'.executions[e]) + 1 <= ReservedOf(s, s.executions[e])
    requires forall p :: p in s.pages && p in s'.pages ==> s'.pages[p].references <= s.pages[p].references
    requires forall k | k in s.executions && k != e :: TailAlive'(s, s.executions[k])
    ensures Reserved(s') + 1 <= Reserved(s)
  {
    forall k | k in s'.executions && k != e
      ensures ReservedOf(s', s'.executions[k]) <= ReservedOf(s, s.executions[k])
    {
      var x := s.executions[k];
      assert TailAlive'(s, x);
      if x.pages != [] { assert PageStays(s, s', x.pages[|x.pages| - 1]); }
    }
    SumAside(s.executions, Reservation(s), s'.executions, Reservation(s'), e);
  }

  predicate TailAlive'(s: Ledger, x: Execution) {
    x.pages != [] ==> x.pages[|x.pages| - 1] in s.pages
  }

  lemma TailHeld(s: Ledger, k: ExecutionId, growing: ExecutionId)
    requires Shape(s, growing) && k in s.executions
    ensures TailAlive'(s, s.executions[k])
  {
    var x := s.executions[k];
    assert ExecutionShape(s, k, growing);
    if x.pages != [] { assert PageAt(s, x.pages, x.processed, |x.pages| - 1); }
  }

  lemma TailsHeld(s: Ledger, growing: ExecutionId)
    requires Shape(s, growing)
    ensures forall k | k in s.executions :: TailAlive'(s, s.executions[k])
  {
    forall k | k in s.executions ensures TailAlive'(s, s.executions[k]) { TailHeld(s, k, growing); }
  }

  // ----------------------------------------------------------------- growing a page

  /** The write loop from page `i` on: the table ends before `i` and its tail is private. */
  ghost predicate Writing(s: Ledger, e: ExecutionId, i: nat, outside: set<Allocation>) {
    && Inv(s, outside, e) && e in s.executions
    && s.executions[e].capture.NoCapture?
    && |s.executions[e].pages| == i
    && !TailCopy(s, s.executions[e])
  }

  lemma GrowFields(s: Ledger, e: ExecutionId, firstToken: nat)
    requires e in s.executions && CreatePage(s, firstToken).Made?
    requires CreatePage(s, firstToken).value.0.executions == s.executions
    ensures var (c, p) := CreatePage(s, firstToken).value;
      GrowPage(s, e, firstToken) ==
        Made((c.(executions := c.executions[e := s.executions[e].(pages := s.executions[e].pages + [p])]), p))
  {
  }

  lemma GrowBooks(s: Ledger, e: ExecutionId, firstToken: nat, outside: set<Allocation>)
    requires PoolOk(s) && Books(s, multiset{}, outside, 0) && e in s.executions && s.executions[e].capture.NoCapture?
    requires GrowPage(s, e, firstToken).Made? && CreatePage(s, firstToken).Made?
    requires CreatePage(s, firstToken).value.0.executions == s.executions
    ensures var (s', p) := GrowPage(s, e, firstToken).value;
      p !in s.pages && PoolOk(s') && Books(s', multiset{}, outside, 0)
  {
    BooksCreatePage(s, firstToken, multiset{}, outside, 0);
    GrowFields(s, e, firstToken);
    var (c, p) := CreatePage(s, firstToken).value;
    assert multiset{} + multiset{p} == multiset{p};
    var x := s.executions[e].(pages := s.executions[e].pages + [p]);
    GrowShifts(s.executions[e].pages, p);
    BooksEditExecution(c, e, x, multiset{p}, multiset{}, outside, 0);
  }

  lemma GrowShifts(pages: seq<PageId>, p: PageId)
    ensures Shifts(multiset{p}, multiset(pages), multiset{}, multiset(pages + [p]))
  {
    forall q ensures ShiftAt(multiset{p}, multiset(pages), multiset{}, multiset(pages + [p]), q) {}
  }

  lemma GrowShape(s: Ledger, s': Ledger, e: ExecutionId, p: PageId)
    requires Shape(s, e) && Ids(s) && OnlyTable(s, s', e)
    requires p !in s.pages && p in s'.pages && s'.pages.Keys == s.pages.Keys + {p}
    requires s'.executions[e].pages == s.executions[e].pages + [p]
    requires s'.pages[p].references == 1 && s'.pages[p].validTokens == 0 && PageShape(s', p)
    requires s'.pages[p].firstToken == |s.executions[e].pages| * s.config.pageTokens
    requires |s.executions[e].pages| < PageCount(s.executions[e].limit, s.config.pageTokens)
    requires forall q :: q in s.pages ==> s'.pages[q].references == s.pages[q].references
    ensures Shape(s', e)
  {
    var x, x', n := s.executions[e], s'.executions[e], |s.executions[e].pages|;
    assert ExecutionShape(s, e, e);
    PageCountIff(x.processed, n, s.config.pageTokens);
    forall i: nat ensures PageAt(s', x'.pages, x'.processed, i) {
      assert PageAt(s, x.pages, x.processed, i);
      if i < n { assert PageStays(s, s', x.pages[i]); }
    }
    forall i: nat ensures PrivateAt(s', x', i) {
      assert PrivateAt(s, x, i);
    }
    OnlyTableShape(s, s', e, e);
  }

  /** What growing changes, apart from the books. */
  lemma GrowEffect(s: Ledger, e: ExecutionId, i: nat, firstToken: nat)
    requires PoolOk(s) && HasRoom(s) && Ids(s) && e in s.executions && |s.executions[e].pages| == i
    requires i < PageCount(s.executions[e].limit, s.config.pageTokens) && !TailCopy(s, s.executions[e])
    requires forall k | k in s.executions :: TailAlive'(s, s.executions[k])
    ensures CreatePage(s, firstToken).Made? && GrowPage(s, e, firstToken).Made?
    ensures CreatePage(s, firstToken).value.0.executions == s.executions
    ensures var (s', p) := GrowPage(s, e, firstToken).value;
      && p !in s.pages && p in s'.pages && s'.pages == s.pages[p := s'.pages[p]]
      && s'.pages[p].references == 1 && s'.pages[p].validTokens == 0 && PageShape(s', p)
      && s'.pages[p].firstToken == firstToken
      && s'.executions[e].pages == s.executions[e].pages + [p]
      && OnlyTable(s, s', e) && !TailCopy(s', s'.executions[e]) && HasRoom(s')
  {
    SumBounds(s.executions, Reservation(s), e);
    CreateSucceeds(s, firstToken);
    GrowFields(s, e, firstToken);
    var (s', p) := GrowPage(s, e, firstToken).value;
    forall q ensures PageStays(s, s', q) {}
    OnlyTableReserved(s, s', e);
  }

  lemma GrowKeepsShape(s: Ledger, e: ExecutionId, i: nat, firstToken: nat)
    requires firstToken == i * s.config.pageTokens && Shape(s, e)
    requires PoolOk(s) && HasRoom(s) && Ids(s) && e in s.executions && |s.executions[e].pages| == i
    requires i < PageCount(s.executions[e].limit, s.config.pageTokens) && !TailCopy(s, s.executions[e])
    ensures GrowPage(s, e, firstToken).Made? && Shape(GrowPage(s, e, firstToken).value.0, e)
  {
    TailsHeld(s, e);
    GrowEffect(s, e, i, firstToken);
    var (s', p) := GrowPage(s, e, firstToken).value;
    GrowShape(s, s', e, p);
  }

  /** One more promised page for the write in progress. */
  lemma GrowStep(s: Ledger, e: ExecutionId, i: nat, firstToken: nat, outside: set<Allocation>)
    requires firstToken == i * s.config.pageTokens
    requires Writing(s, e, i, outside) && i < PageCount(s.executions[e].limit, s.config.pageTokens)
    ensures GrowPage(s, e, firstToken).Made?
    ensures var (s', p) := GrowPage(s, e, firstToken).value;
      && Writing(s', e, i + 1, outside) && OnlyTable(s, s', e)
      && p !in s.pages && s'.executions[e].pages == s.executions[e].pages + [p]
      && s'.pages == s.pages[p := s'.pages[p]]
  {
    TailsHeld(s, e);
    GrowEffect(s, e, i, firstToken);
    GrowBooks(s, e, firstToken, outside);
    GrowKeepsShape(s, e, i, firstToken);
  }

  // ------------------------------------------------------------------ copying a page

  lemma CopyFields(s: Ledger, e: ExecutionId, i: nat)
    requires e in s.executions && i < |s.executions[e].pages| && s.executions[e].pages[i] in s.pages
    requires var r := CreatePage(s, s.pages[s.executions[e].pages[i]].firstToken);
      r.Made? && r.value.0.executions == s.executions && r.value.1 in r.value.0.pages
    ensures var shared := s.executions[e].pages[i];
      var (c, p) := CreatePage(s, s.pages[shared].firstToken).value;
      var w := c.(pages := c.pages[p := c.pages[p].(validTokens := s.pages[shared].validTokens)],
                  executions := c.executions[e := s.executions[e].(pages := s.executions[e].pages[i := p])],
                  copies := s.copies + 1);
      CopyPage(s, e, i) == Made((ReleasePage(w, shared), p))
  {
  }

  lemma CopyShifts(pages: seq<PageId>, i: nat, p: PageId)
    requires i < |pages|
    ensures Shifts(multiset{p}, multiset(pages), multiset{pages[i]}, multiset(pages[i := p]))
  {
    var after := multiset(pages[i := p]);
    forall q ensures ShiftAt(multiset{p}, multiset(pages), multiset{pages[i]}, after, q) {}
  }

  lemma CopyBooks(s: Ledger, e: ExecutionId, i: nat, outside: set<Allocation>)
    requires PoolOk(s) && Books(s, multiset{}, outside, 0) && e in s.executions && s.executions[e].capture.NoCapture?
    requires i < |s.executions[e].pages| && s.executions[e].pages[i] in s.pages
    requires var r := CreatePage(s, s.pages[s.executions[e].pages[i]].firstToken);
      r.Made? && r.value.0.executions == s.executions && r.value.1 in r.value.0.pages
    ensures CopyPage(s, e, i).Made?
    ensures var (s', p) := CopyPage(s, e, i).value;
      p !in s.pages && PoolOk(s') && Books(s', multiset{}, outside, 0)
  {
    var shared := s.executions[e].pages[i];
    CopyFields(s, e, i);
    BooksCreatePage(s, s.pages[shared].firstToken, multiset{}, outside, 0);
    var (c, p) := CreatePage(s, s.pages[shared].firstToken).value;
    assert multiset{} + multiset{p} == multiset{p};
    var page := c.pages[p].(validTokens := s.pages[shared].validTokens);
    BooksEditPage(c, p, page, multiset{p}, outside, 0);
    var f := c.(pages := c.pages[p := page]);
    CopyBooksAfter(f, e, i, p, outside, s.copies + 1);
    var w := f.(executions := f.executions[e := f.executions[e].(pages := f.executions[e].pages[i := p])],
                copies := s.copies + 1);
    assert w == c.(pages := c.pages[p := c.pages[p].(validTokens := s.pages[shared].validTokens)],
                   executions := c.executions[e := s.executions[e].(pages := s.executions[e].pages[i := p])],
                   copies := s.copies + 1);
  }

  lemma CopyBooksAfter(f: Ledger, e: ExecutionId, i: nat, p: PageId, outside: set<Allocation>, copies: nat)
    requires PoolOk(f) && Books(f, multiset{p}, outside, 0) && e in f.executions && f.executions[e].capture.NoCapture?
    requires i < |f.executions[e].pages|
    ensures var w := f.(executions := f.executions[e := f.executions[e].(pages := f.executions[e].pages[i := p])],
      copies := copies);
      PoolOk(ReleasePage(w, f.executions[e].pages[i]))
          && Books(ReleasePage(w, f.executions[e].pages[i]), multiset{}, outside, 0)
  {
    var x := f.executions[e];
    var shared := x.pages[i];
    var x' := x.(pages := x.pages[i := p]);
    CopyShifts(x.pages, i, p);
    BooksEditExecution(f, e, x', multiset{p}, multiset{shared}, outside, 0);
    var w0 := f.(executions := f.executions[e := x']);
    var w := w0.(copies := copies);
    RefsSame(w0, w, multiset{shared});
    OwnedSame(w0, w, outside);
    assert Index(w, 0) && Ids(w);
    BooksReleasePage(w, shared, multiset{shared}, outside, 0);
    assert multiset{shared} - multiset{shared} == multiset{};
  }

  lemma CopyShape(s: Ledger, s': Ledger, e: ExecutionId, i: nat, p: PageId)
    requires Shape(s, 0) && Ids(s) && OnlyTable(s, s', e) && p !in s.pages && p in s'.pages
    requires s'.pages.Keys == s.pages.Keys + {p} && PageShape(s', p)
    requires i + 1 == |s.executions[e].pages| && s.executions[e].pages[i] in s.pages
    requires s'.executions[e].pages == s.executions[e].pages[i := p]
    requires s'.pages[p].firstToken == s.pages[s.executions[e].pages[i]].firstToken
    requires s'.pages[p].validTokens == s.pages[s.executions[e].pages[i]].validTokens
    ensures Shape(s', e)
  {
    var x, x' := s.executions[e], s'.executions[e];
    assert ExecutionShape(s, e, 0);
    PageCountMonotone(x.processed, x.limit, s.config.pageTokens);
    forall j: nat ensures PageAt(s', x'.pages, x'.processed, j) {
      assert PageAt(s, x.pages, x.processed, j);
      if j < i { assert PageStays(s, s', x.pages[j]); }
    }
    forall j: nat ensures PrivateAt(s', x', j) {}
    OnlyTableShape(s, s', e, 0);
  }

  lemma CopyTable(s: Ledger, e: ExecutionId, i: nat)
    requires e in s.executions && i + 1 == |s.executions[e].pages| && TailCopy(s, s.executions[e])
    requires CopyPage(s, e, i).Made?
    requires var shared := s.executions[e].pages[i];
      var r := CreatePage(s, s.pages[shared].firstToken);
      r.Made? && r.value.0.executions == s.executions && r.value.1 in r.value.0.pages && r.value.1 !in s.pages
      && r.value.0.pages == s.pages[r.value.1 := r.value.0.pages[r.value.1]]
      && r.value.0.checkpoints == s.checkpoints && r.value.0.config == s.config
    ensures OnlyTable(s, CopyPage(s, e, i).value.0, e)
  {
    CopyFields(s, e, i);
    forall q ensures PageStays(s, CopyPage(s, e, i).value.0, q) {}
  }

  /** Under the invariant the promised page for a copy can be created. */
  lemma CopyCreates(s: Ledger, e: ExecutionId, i: nat)
    requires PoolOk(s) && HasRoom(s) && e in s.executions
    requires i + 1 == |s.executions[e].pages| && TailCopy(s, s.executions[e])
    ensures var r := CreatePage(s, s.pages[s.executions[e].pages[i]].firstToken);
      r.Made? && r.value.0.executions == s.executions && r.value.1 in r.value.0.pages
    ensures CopyPage(s, e, i).Made?
  {
    SumBounds(s.executions, Reservation(s), e);
    CreateSucceeds(s, s.pages[s.executions[e].pages[i]].firstToken);
    CopyFields(s, e, i);
  }

  /** The private copy beside the shared page. */
  lemma CopyMade(s: Ledger, e: ExecutionId, i: nat)
    requires PoolOk(s) && HasRoom(s) && Ids(s) && e in s.executions
    requires i + 1 == |s.executions[e].pages| && TailCopy(s, s.executions[e])
    requires PageShape(s, s.executions[e].pages[i])
    ensures CopyPage(s, e, i).Made?
    ensures var (s', p) := CopyPage(s, e, i).value;
      && p !in s.pages && p in s'.pages && s'.pages.Keys == s.pages.Keys + {p}
      && s'.pages[p].references == 1 && PageShape(s', p)
      && s'.pages[p].firstToken == s.pages[s.executions[e].pages[i]].firstToken
      && s'.pages[p].validTokens == s.pages[s.executions[e].pages[i]].validTokens
      && s'.executions[e].pages == s.executions[e].pages[i := p]
      && !TailCopy(s', s'.executions[e]) && OnlyTable(s, s', e)
      && Fits(s') + 1 == Fits(s) && s'.indexUsed == s.indexUsed + PAGE_INFO_BYTES && s'.config == s.config
  {
    CopyCreates(s, e, i);
    SumBounds(s.executions, Reservation(s), e);
    CreateSucceeds(s, s.pages[s.executions[e].pages[i]].firstToken);
    CopyFields(s, e, i);
    CopyTable(s, e, i);
  }

  /** What copying changes, apart from the books. */
  lemma CopyEffect(s: Ledger, e: ExecutionId, i: nat)
    requires PoolOk(s) && HasRoom(s) && Ids(s) && e in s.executions
    requires i + 1 == |s.executions[e].pages| && TailCopy(s, s.executions[e])
    requires PageShape(s, s.executions[e].pages[i])
    requires forall k | k in s.executions :: TailAlive'(s, s.executions[k])
    ensures CopyPage(s, e, i).Made?
    ensures var (s', p) := CopyPage(s, e, i).value;
      && p !in s.pages && p in s'.pages && s'.pages.Keys == s.pages.Keys + {p}
      && s'.pages[p].references == 1 && PageShape(s', p)
      && s'.pages[p].firstToken == s.pages[s.executions[e].pages[i]].firstToken
      && s'.pages[p].validTokens == s.pages[s.executions[e].pages[i]].validTokens
      && s'.executions[e].pages == s.executions[e].pages[i := p]
      && OnlyTable(s, s', e) && !TailCopy(s', s'.executions[e]) && HasRoom(s')
  {
    CopyMade(s, e, i);
    var (s', p) := CopyPage(s, e, i).value;
    OnlyTableReserved(s, s', e);
  }

  /** The copy-on-write of a shared partial tail: the promised page is there, the shared page
      stays with its other holders, and the writer's copy is private. */
  lemma CopyStep(s: Ledger, e: ExecutionId, i: nat, outside: set<Allocation>)
    requires Inv(s, outside, 0) && e in s.executions && s.executions[e].capture.NoCapture?
    requires i + 1 == |s.executions[e].pages| && TailCopy(s, s.executions[e])
    ensures CopyPage(s, e, i).Made?
    ensures var (s', p) := CopyPage(s, e, i).value;
      && Writing(s', e, i + 1, outside) && OnlyTable(s, s', e)
      && p !in s.pages && s'.executions[e].pages == s.executions[e].pages[i := p]
      && p in s'.pages && s'.pages[p].references == 1
  {
    TailsHeld(s, 0);
    assert PageShape(s, s.executions[e].pages[i]);
    CopyCreates(s, e, i);
    CopyEffect(s, e, i);
    CopyBooks(s, e, i, outside);
    var (s', p) := CopyPage(s, e, i).value;
    CopyShape(s, s', e, i, p);
  }

  // --------------------------------------------------------------------- the loop

  predicate RefStays(s: Ledger, t: Ledger, p: PageId) {
    p in s.pages ==> p in t.pages && t.pages[p].references == s.pages[p].references
  }

  lemma TouchUnfoldGrow(s: Ledger, e: ExecutionId, i: nat, firstToken: nat, last: nat, plan: WritePlan)
    requires e in s.executions && |s.executions[e].pages| <= i <= last && firstToken == i * s.config.pageTokens
    requires GrowPage(s, e, firstToken).Made?
    ensures var (u, p) := GrowPage(s, e, firstToken).value;
      Touch(s, e, i, last, plan) == Touch(u, e, i + 1, last, plan.(newPages := plan.newPages + [p]))
  {
  }

  lemma TouchUnfoldCopy(s: Ledger, e: ExecutionId, i: nat, last: nat, plan: WritePlan)
    requires e in s.executions && i < |s.executions[e].pages| && i <= last && s.executions[e].pages[i] in s.pages
    requires s.pages[s.executions[e].pages[i]].references > 1 && CopyPage(s, e, i).Made?
    ensures var (u, p) := CopyPage(s, e, i).value;
      Touch(s, e, i, last, plan)
          == Touch(u, e, i + 1, last, plan.(copies := plan.copies + [(s.executions[e].pages[i], p)]))
  {
  }

  lemma TouchUnfoldSkip(s: Ledger, e: ExecutionId, i: nat, last: nat, plan: WritePlan)
    requires e in s.executions && i < |s.executions[e].pages| && i <= last && s.executions[e].pages[i] in s.pages
    requires s.pages[s.executions[e].pages[i]].references <= 1
    ensures Touch(s, e, i, last, plan) == Touch(s, e, i + 1, last, plan)
  {
  }

  lemma SliceStep<T>(a: seq<T>, b: seq<T>, p: T, front: seq<T>)
    requires a + [p] <= b
    ensures a <= b && b[|a|..] == [p] + b[|a + [p]|..]
    ensures front + [p] + b[|a + [p]|..] == front + b[|a|..]
  {
    assert b[|a|] == (a + [p])[|a|];
    assert forall k :: 0 <= k < |a| ==> a[k] == (a + [p])[k];
    assert b[|a|..] == [p] + b[|a| + 1..];
  }

  /** From page `i` on the loop only creates pages, and every creation succeeds. */
  lemma {:induction false} TouchGrows(s: Ledger, e: ExecutionId, i: nat, last: nat, plan: WritePlan,
      outside: set<Allocation>)
    requires Writing(s, e, i, outside) && i <= last + 1
    requires last < PageCount(s.executions[e].limit, s.config.pageTokens)
    ensures Touch(s, e, i, last, plan).Made?
    ensures Writing(Touch(s, e, i, last, plan).value.0, e, last + 1, outside)
    decreases last + 1 - i
  {
    if i <= last {
      var firstToken := FirstToken(i, s.config.pageTokens);
      GrowStep(s, e, i, firstToken, outside);
      TouchUnfoldGrow(s, e, i, firstToken, last, plan);
      var (u, p) := GrowPage(s, e, firstToken).value;
      TouchGrows(u, e, i + 1, last, plan.(newPages := plan.newPages + [p]), outside);
    }
  }

  /** One growth step, without the books. */
  lemma GrowChanges(s: Ledger, e: ExecutionId, firstToken: nat)
    requires Ids(s) && e in s.executions && GrowPage(s, e, firstToken).Made?
    ensures var (u, p) := GrowPage(s, e, firstToken).value;
      && Ids(u) && OnlyTable(s, u, e) && (forall q :: RefStays(s, u, q))
      && p !in s.pages && u.executions[e].pages == s.executions[e].pages + [p]
  {
    var (u, p) := GrowPage(s, e, firstToken).value;
    forall q ensures PageStays(s, u, q) {}
  }

  /** What the growing loop changes: the writer's table gains the plan's new pages. */
  lemma {:induction false} TouchChanges(s: Ledger, e: ExecutionId, i: nat, last: nat, plan: WritePlan)
    requires Ids(s) && e in s.executions && |s.executions[e].pages| == i <= last + 1 && Touch(s, e, i, last, plan).Made?
    ensures var (t, done) := Touch(s, e, i, last, plan).value;
      && OnlyTable(s, t, e) && (forall p :: RefStays(s, t, p))
      && done.copies == plan.copies && plan.newPages <= done.newPages
      && t.executions[e].pages == s.executions[e].pages + done.newPages[|plan.newPages|..]
      && (forall p :: p in done.newPages[|plan.newPages|..] ==> p !in s.pages)
    decreases last + 1 - i
  {
    if i > last {
      forall p ensures PageStays(s, s, p) {}
      assert s.executions[e].(pages := s.executions[e].pages) == s.executions[e];
      assert s.executions[e := s.executions[e]] == s.executions;
    } else {
      var firstToken := FirstToken(i, s.config.pageTokens);
      GrowChanges(s, e, firstToken);
      TouchUnfoldGrow(s, e, i, firstToken, last, plan);
      var (u, p) := GrowPage(s, e, firstToken).value;
      var next := plan.(newPages := plan.newPages + [p]);
      TouchChanges(u, e, i + 1, last, next);
      var (t, done) := Touch(u, e, i + 1, last, next).value;
      OnlyTableTrans(s, u, t, e);
      SliceStep(plan.newPages, done.newPages, p, s.executions[e].pages);
      forall q ensures RefStays(s, t, q) { assert RefStays(s, u, q) && RefStays(u, t, q); }
      forall q | q in done.newPages[|plan.newPages|..] ensures q !in s.pages { assert PageStays(s, u, q); }
    }
  }

  /** The page table after the loop: old full pages, the copied tail if it was shared, new pages. */
  ghost predicate Touched(s: Ledger, t: Ledger, e: ExecutionId, plan: WritePlan)
    requires e in s.executions && e in t.executions
  {
    var x, pages := s.executions[e], t.executions[e].pages;
    && (forall p :: p in plan.newPages ==> p !in s.pages)
    && if TailCopy(s, x)
       then |plan.copies| == 1 && plan.copies[0].0 == x.pages[|x.pages| - 1] && plan.copies[0].1 !in s.pages
            && pages == x.pages[..|x.pages| - 1] + [plan.copies[0].1] + plan.newPages
       else plan.copies == [] && pages == x.pages + plan.newPages
  }

  ghost predicate PrivateFrom(t: Ledger, e: ExecutionId, firstPage: nat)
    requires e in t.executions
  {
    forall j: nat :: PrivatePage(t, t.executions[e].pages, firstPage, j)
  }

  predicate PrivatePage(t: Ledger, pages: seq<PageId>, firstPage: nat, j: nat) {
    firstPage <= j < |pages| ==> pages[j] in t.pages && t.pages[pages[j]].references == 1
  }

  lemma InvGrowing(s: Ledger, e: ExecutionId, outside: set<Allocation>)
    requires Inv(s, outside, 0) && e in s.executions
    ensures Inv(s, outside, e)
  {
    forall k ensures ExecutionShape(s, k, e) {
      assert ExecutionShape(s, k, 0);
      if k == e {
        var x := s.executions[e];
        PageCountMonotone(x.processed, x.limit, s.config.pageTokens);
        forall i: nat ensures PrivateAt(s, x, i) {}
      }
    }
  }

  /** Growth leaves the pages from the write position on private, given a private tail. */
  lemma PrivateAfter(u: Ledger, t: Ledger, e: ExecutionId, firstPage: nat)
    requires Shape(t, e) && OnlyTable(u, t, e) && (forall p :: RefStays(u, t, p))
    requires u.executions[e].pages <= t.executions[e].pages
    requires firstPage == PageOf(u.executions[e].processed, u.config.pageTokens)
    requires InPage(u.executions[e].processed, u.config.pageTokens) != 0 ==>
               firstPage < |u.executions[e].pages| && u.executions[e].pages[firstPage] in u.pages
               && u.pages[u.executions[e].pages[firstPage]].references == 1
    ensures PrivateFrom(t, e, firstPage)
  {
    var x := t.executions[e];
    assert ExecutionShape(t, e, e);
    NextPage(x.processed, t.config.pageTokens);
    forall j: nat ensures PrivatePage(t, x.pages, firstPage, j) {
      assert PrivateAt(t, x, j);
      if firstPage < |u.executions[e].pages| { assert RefStays(u, t, u.executions[e].pages[firstPage]); }
    }
  }

  /** The page loop succeeds, copies a shared tail, creates the rest, and leaves every page of
      the written range private. */
  ghost predicate LoopDone(s: Ledger, e: ExecutionId, firstPage: nat, last: nat, t: Ledger, plan: WritePlan,
      outside: set<Allocation>) {
    && OnlyTable(s, t, e) && Writing(t, e, last + 1, outside)
    && Touched(s, t, e, plan) && PrivateFrom(t, e, firstPage)
  }

  predicate LoopOk(s: Ledger, e: ExecutionId, firstPage: nat, last: nat) {
    && e in s.executions && s.executions[e].capture.NoCapture?
    && firstPage == PageOf(s.executions[e].processed, s.config.pageTokens)
    && s.executions[e].processed < s.executions[e].limit
    && firstPage <= last < PageCount(s.executions[e].limit, s.config.pageTokens)
  }

  /** The loop of a write whose next token starts a page. */
  lemma TouchAligned(s: Ledger, e: ExecutionId, firstPage: nat, last: nat, outside: set<Allocation>)
    requires Inv(s, outside, 0) && LoopOk(s, e, firstPage, last)
    requires InPage(s.executions[e].processed, s.config.pageTokens) == 0
    ensures var r := Touch(s, e, firstPage, last, WritePlan([], []));
      r.Made? && LoopDone(s, e, firstPage, last, r.value.0, r.value.1, outside)
  {
    var x := s.executions[e];
    assert ExecutionShape(s, e, 0);
    NextPage(x.processed, s.config.pageTokens);
    InvGrowing(s, e, outside);
    TouchGrows(s, e, firstPage, last, WritePlan([], []), outside);
    TouchChanges(s, e, firstPage, last, WritePlan([], []));
    var (t, done) := Touch(s, e, firstPage, last, WritePlan([], [])).value;
    assert done.newPages[0..] == done.newPages;
    PrivateAfter(s, t, e, firstPage);
  }

  /** A partly filled tail is the last page of the table, and private unless it must be copied. */
  lemma PartialTail(s: Ledger, e: ExecutionId, firstPage: nat, outside: set<Allocation>)
    requires Ids(s) && Refs(s, multiset{}) && Shape(s, 0) && e in s.executions
    requires InPage(s.executions[e].processed, s.config.pageTokens) != 0
      && s.executions[e].processed < s.executions[e].limit
    requires firstPage == PageOf(s.executions[e].processed, s.config.pageTokens)
    ensures var x := s.executions[e];
      && |x.pages| == firstPage + 1 && x.pages[firstPage] in s.pages
      && (!TailCopy(s, x) ==> s.pages[x.pages[firstPage]].references == 1)
  {
    var x := s.executions[e];
    assert ExecutionShape(s, e, 0);
    NextPage(x.processed, s.config.pageTokens);
    assert PageAt(s, x.pages, x.processed, firstPage);
    TailReferenced(s, x);
  }

  lemma TouchPrivate(s: Ledger, e: ExecutionId, firstPage: nat, last: nat, outside: set<Allocation>)
    requires Inv(s, outside, 0) && LoopOk(s, e, firstPage, last)
    requires InPage(s.executions[e].processed, s.config.pageTokens) != 0 && !TailCopy(s, s.executions[e])
    ensures var r := Touch(s, e, firstPage, last, WritePlan([], []));
      r.Made? && LoopDone(s, e, firstPage, last, r.value.0, r.value.1, outside)
  {
    var none := WritePlan([], []);
    PartialTail(s, e, firstPage, outside);
    InvGrowing(s, e, outside);
    TouchUnfoldSkip(s, e, firstPage, last, none);
    TouchGrows(s, e, firstPage + 1, last, none, outside);
    TouchChanges(s, e, firstPage + 1, last, none);
    var (t, done) := Touch(s, e, firstPage + 1, last, none).value;
    assert done.newPages[0..] == done.newPages;
    PrivateAfter(s, t, e, firstPage);
  }

  lemma TouchShared(s: Ledger, e: ExecutionId, firstPage: nat, last: nat, outside: set<Allocation>)
    requires Inv(s, outside, 0) && LoopOk(s, e, firstPage, last) && TailCopy(s, s.executions[e])
    ensures var r := Touch(s, e, firstPage, last, WritePlan([], []));
      r.Made? && LoopDone(s, e, firstPage, last, r.value.0, r.value.1, outside)
  {
    var none := WritePlan([], []);
    PartialTail(s, e, firstPage, outside);
    var u, p := SharedCopied(s, e, firstPage, last, outside);
    var copied := WritePlan([(s.executions[e].pages[firstPage], p)], []);
    TouchGrows(u, e, firstPage + 1, last, copied, outside);
    TouchChanges(u, e, firstPage + 1, last, copied);
    var (t, done) := Touch(u, e, firstPage + 1, last, copied).value;
    AfterCopy(s, u, t, e, firstPage, p, done);
  }

  lemma SharedCopied(s: Ledger, e: ExecutionId, firstPage: nat, last: nat, outside: set<Allocation>)
    returns (u: Ledger, p: PageId)
    requires Inv(s, outside, 0) && LoopOk(s, e, firstPage, last) && TailCopy(s, s.executions[e])
    requires |s.executions[e].pages| == firstPage + 1
    ensures Writing(u, e, firstPage + 1, outside) && OnlyTable(s, u, e)
    ensures p !in s.pages && u.executions[e].pages == s.executions[e].pages[firstPage := p]
    ensures p in u.pages && u.pages[p].references == 1
    ensures Touch(s, e, firstPage, last, WritePlan([], [])) ==
              Touch(u, e, firstPage + 1, last, WritePlan([(s.executions[e].pages[firstPage], p)], []))
  {
    CopyStep(s, e, firstPage, outside);
    u, p := CopyPage(s, e, firstPage).value.0, CopyPage(s, e, firstPage).value.1;
    SharedTouch(s, e, firstPage, last);
  }

  lemma SharedTouch(s: Ledger, e: ExecutionId, firstPage: nat, last: nat)
    requires e in s.executions && firstPage < |s.executions[e].pages| && firstPage <= last
    requires s.executions[e].pages[firstPage] in s.pages && s.pages[s.executions[e].pages[firstPage]].references > 1
    requires CopyPage(s, e, firstPage).Made?
    ensures var (u, p) := CopyPage(s, e, firstPage).value;
      Touch(s, e, firstPage, last, WritePlan([], []))
        == Touch(u, e, firstPage + 1, last, WritePlan([(s.executions[e].pages[firstPage], p)], []))
  {
    var none, p := WritePlan([], []), CopyPage(s, e, firstPage).value.1;
    TouchUnfoldCopy(s, e, firstPage, last, none);
    assert none.(copies := none.copies + [(s.executions[e].pages[firstPage], p)])
        == WritePlan([(s.executions[e].pages[firstPage], p)], []);
  }

  lemma AfterCopy(s: Ledger, u: Ledger, t: Ledger, e: ExecutionId, firstPage: nat, p: PageId, done: WritePlan)
    requires OnlyTable(s, u, e) && OnlyTable(u, t, e) && Shape(t, e) && (forall q :: RefStays(u, t, q))
    requires TailCopy(s, s.executions[e]) && firstPage + 1 == |s.executions[e].pages| && p !in s.pages
    requires firstPage == PageOf(s.executions[e].processed, s.config.pageTokens)
    requires u.executions[e].pages == s.executions[e].pages[firstPage := p]
    requires p in u.pages && u.pages[p].references == 1
    requires done.copies == [(s.executions[e].pages[firstPage], p)]
    requires t.executions[e].pages == u.executions[e].pages + done.newPages[0..]
    requires forall q :: q in done.newPages[0..] ==> q !in u.pages
    ensures OnlyTable(s, t, e) && Touched(s, t, e, done) && PrivateFrom(t, e, firstPage)
  {
    var x := s.executions[e];
    assert done.newPages[0..] == done.newPages;
    OnlyTableTrans(s, u, t, e);
    forall q | q in done.newPages ensures q !in s.pages { assert PageStays(s, u, q); }
    assert x.pages[firstPage := p] == x.pages[..|x.pages| - 1] + [p];
    assert u.executions[e].pages[firstPage] == p;
    PrivateAfter(u, t, e, firstPage);
  }

  lemma TouchSucceeds(s: Ledger, e: ExecutionId, firstPage: nat, last: nat, outside: set<Allocation>)
    requires Inv(s, outside, 0) && LoopOk(s, e, firstPage, last)
    ensures var r := Touch(s, e, firstPage, last, WritePlan([], []));
      r.Made? && LoopDone(s, e, firstPage, last, r.value.0, r.value.1, outside)
  {
    if InPage(s.executions[e].processed, s.config.pageTokens) == 0 {
      TouchAligned(s, e, firstPage, last, outside);
    } else if TailCopy(s, s.executions[e]) {
      TouchShared(s, e, firstPage, last, outside);
    } else {
      TouchPrivate(s, e, firstPage, last, outside);
    }
  }

  // ---------------------------------------------------------------------- settling

  function RefilledPages(s: Ledger, touched: seq<PageId>, end: nat): map<PageId, Page> {
    map p | p in s.pages :: if p in touched then Refilled(s.pages[p], end, s.config.pageTokens) else s.pages[p]
  }

  lemma RefillBooks(s: Ledger, touched: seq<PageId>, end: nat, outside: set<Allocation>)
    requires PoolOk(s) && Books(s, multiset{}, outside, 0)
    ensures Books(s.(pages := RefilledPages(s, touched, end)), multiset{}, outside, 0)
  {
    var s' := s.(pages := RefilledPages(s, touched, end));
    SameKeys(s.pages, s'.pages);
    OwnedSameStorage(s, s', outside);
    forall q ensures RefAt(s', multiset{}, q) { assert RefAt(s, multiset{}, q); }
  }

  lemma SettleBooks(t: Ledger, e: ExecutionId, firstPage: nat, end: nat, outside: set<Allocation>)
    requires PoolOk(t) && Books(t, multiset{}, outside, 0) && e in t.executions && firstPage <= |t.executions[e].pages|
    ensures PoolOk(Settle(t, e, firstPage, end)) && Books(Settle(t, e, firstPage, end), multiset{}, outside, 0)
  {
    var x := t.executions[e];
    RefillBooks(t, x.pages[firstPage..], end, outside);
    var u := t.(pages := RefilledPages(t, x.pages[firstPage..], end));
    assert Shifts(multiset{}, UseSet(x), multiset{}, UseSet(x.(processed := end))) by {
      forall q ensures ShiftAt(multiset{}, UseSet(x), multiset{}, UseSet(x.(processed := end)), q) {}
    }
    BooksEditExecution(u, e, x.(processed := end), multiset{}, multiset{}, outside, 0);
    assert Settle(t, e, firstPage, end) == u.(executions := u.executions[e := x.(processed := end)]);
  }

  /** A private page of the writer is in no other record. */
  lemma PrivateElsewhere(t: Ledger, e: ExecutionId, p: PageId, outside: set<Allocation>)
    requires Books(t, multiset{}, outside, 0) && e in t.executions
    requires p in t.executions[e].pages && p in t.pages && t.pages[p].references == 1
    ensures forall k | k in t.executions && k != e :: p !in t.executions[k].pages
    ensures forall c | c in t.checkpoints :: p !in t.checkpoints[c].pages
  {
    forall k | k in t.executions && k != e ensures p !in t.executions[k].pages {
      if p in t.executions[k].pages { SharedWithExecution(t, e, k, p, outside); }
    }
    forall c | c in t.checkpoints ensures p !in t.checkpoints[c].pages {
      if p in t.checkpoints[c].pages { SharedWithCheckpoint(t, e, c, p, outside); }
    }
  }

  predicate Undisturbed(t: Ledger, s': Ledger, pages: seq<PageId>) {
    forall p | p in pages && p in t.pages :: p in s'.pages && s'.pages[p] == t.pages[p]
  }

  lemma TableUndisturbed(t: Ledger, s': Ledger, pages: seq<PageId>, tokens: nat)
    requires Table(t, pages, tokens) && Undisturbed(t, s', pages) && s'.config == t.config
    ensures Table(s', pages, tokens)
  {
    forall i: nat ensures PageAt(s', pages, tokens, i) { assert PageAt(t, pages, tokens, i); }
  }

  /** Filling the touched pages disturbs nobody but the writer. */
  lemma SettleUndisturbed(t: Ledger, e: ExecutionId, firstPage: nat, end: nat, outside: set<Allocation>)
    requires Books(t, multiset{}, outside, 0) && e in t.executions && firstPage <= |t.executions[e].pages|
    requires PrivateFrom(t, e, firstPage)
    ensures var s' := Settle(t, e, firstPage, end);
      && (forall k | k in t.executions && k != e :: Undisturbed(t, s', t.executions[k].pages))
      && (forall c | c in t.checkpoints :: Undisturbed(t, s', t.checkpoints[c].pages))
  {
    var pages := t.executions[e].pages;
    forall p | p in pages[firstPage..]
      ensures forall k | k in t.executions && k != e :: p !in t.executions[k].pages
      ensures forall c | c in t.checkpoints :: p !in t.checkpoints[c].pages
    {
      var j: nat :| firstPage <= j < |pages| && pages[j] == p;
      assert PrivatePage(t, pages, firstPage, j);
      PrivateElsewhere(t, e, p, outside);
    }
  }

  lemma SettleTable(t: Ledger, e: ExecutionId, firstPage: nat, end: nat)
    requires e in t.executions && Table(t, t.executions[e].pages, t.executions[e].processed)
    requires firstPage == PageOf(t.executions[e].processed, t.config.pageTokens) && t.executions[e].processed < end
    requires |t.executions[e].pages| == PageCount(end, t.config.pageTokens)
    ensures firstPage < |t.executions[e].pages|
    ensures Table(Settle(t, e, firstPage, end), t.executions[e].pages, end)
  {
    var x, pt := t.executions[e], t.config.pageTokens;
    NextPage(x.processed, pt);
    PageCountIff(end, firstPage, pt);
    var s' := Settle(t, e, firstPage, end);
    forall i: nat ensures PageAt(s', x.pages, end, i) {
      assert PageAt(t, x.pages, x.processed, i);
      PageCountIff(end, i, pt);
      if i < firstPage {
        MulLe(i + 1, firstPage, pt);
        assert (i + 1) * pt == i * pt + pt;
      } else if i < |x.pages| {
        assert x.pages[i] == x.pages[firstPage..][i - firstPage];
      }
    }
  }

  lemma SettleShape(t: Ledger, e: ExecutionId, firstPage: nat, end: nat, outside: set<Allocation>)
    requires Books(t, multiset{}, outside, 0) && Shape(t, e) && e in t.executions && t.executions[e].capture.NoCapture?
    requires firstPage == PageOf(t.executions[e].processed, t.config.pageTokens)
    requires t.executions[e].processed < end <= t.executions[e].limit
    requires |t.executions[e].pages| == PageCount(end, t.config.pageTokens) && PrivateFrom(t, e, firstPage)
    ensures Shape(Settle(t, e, firstPage, end), 0)
  {
    var x, s' := t.executions[e], Settle(t, e, firstPage, end);
    assert ExecutionShape(t, e, e);
    SettleTable(t, e, firstPage, end);
    SettleUndisturbed(t, e, firstPage, end, outside);
    forall k ensures ExecutionShape(s', k, 0) {
      assert ExecutionShape(t, k, e);
      if k in t.executions && k != e {
        TableUndisturbed(t, s', t.executions[k].pages, t.executions[k].processed);
      }
    }
    forall c ensures CheckpointShape(s', c) {
      assert CheckpointShape(t, c);
      if c in t.checkpoints {
        TableUndisturbed(t, s', t.checkpoints[c].pages, t.checkpoints[c].processed);
        SumPut(t.executions, Borrows(c), e, s'.executions[e]);
      }
    }
    forall p ensures PageShape(s', p) { assert PageShape(t, p); }
  }

  lemma SettleReserved(t: Ledger, e: ExecutionId, firstPage: nat, end: nat)
    requires e in t.executions && firstPage < |t.executions[e].pages| && PrivateFrom(t, e, firstPage)
    ensures Reserved(Settle(t, e, firstPage, end)) <= Reserved(t)
  {
    var s' := Settle(t, e, firstPage, end);
    var pages := t.executions[e].pages;
    assert PrivatePage(t, pages, firstPage, |pages| - 1);
    forall k | k in s'.executions ensures ReservedOf(s', s'.executions[k]) <= ReservedOf(t, t.executions[k]) {}
    SumMonotone(s'.executions, Reservation(s'), t.executions, Reservation(t));
  }

  // ------------------------------------------------------------------ the operation

  predicate StorageKept(s: Ledger, s': Ledger, p: PageId) {
    p in s.pages ==> p in s'.pages && s'.pages[p].storage == s.pages[p].storage
  }

  /** What a successful write changes: the writer's length and table, and the filled part of
      its private pages. Everything else, and every other holder's pages, stays. */
  ghost predicate WriteEffect(s: Ledger, s': Ledger, e: ExecutionId, end: nat, plan: WritePlan)
    requires e in s.executions
  {
    var x := s.executions[e];
    && e in s'.executions
    && s'.executions == s.executions[e := x.(processed := end, pages := s'.executions[e].pages)]
    && s'.checkpoints == s.checkpoints && s'.config == s.config
    && (forall p :: StorageKept(s, s', p))
    && Touched(s, s', e, plan)
    && PrivateFrom(s', e, PageOf(x.processed, s.config.pageTokens))
  }

  lemma SettlePrivate(t: Ledger, e: ExecutionId, firstPage: nat, end: nat)
    requires e in t.executions && firstPage <= |t.executions[e].pages| && PrivateFrom(t, e, firstPage)
    ensures PrivateFrom(Settle(t, e, firstPage, end), e, firstPage)
  {
    var s' := Settle(t, e, firstPage, end);
    forall j: nat ensures PrivatePage(s', s'.executions[e].pages, firstPage, j) {
      assert PrivatePage(t, t.executions[e].pages, firstPage, j);
    }
  }

  lemma SettleInv(t: Ledger, e: ExecutionId, firstPage: nat, end: nat, outside: set<Allocation>)
    requires Writing(t, e, PageCount(end, t.config.pageTokens), outside) && PrivateFrom(t, e, firstPage)
    requires firstPage == PageOf(t.executions[e].processed, t.config.pageTokens)
    requires t.executions[e].processed < end <= t.executions[e].limit
    ensures Inv(Settle(t, e, firstPage, end), outside, 0)
    ensures PrivateFrom(Settle(t, e, firstPage, end), e, firstPage)
  {
    assert ExecutionShape(t, e, e);
    SettleTable(t, e, firstPage, end);
    SettleBooks(t, e, firstPage, end, outside);
    SettleShape(t, e, firstPage, end, outside);
    SettleReserved(t, e, firstPage, end);
    SettlePrivate(t, e, firstPage, end);
  }

  lemma PrepareWriteFields(s: Ledger, e: ExecutionId, first: nat, count: nat, firstPage: nat, last: nat, end: nat)
    requires WriteOk(s, e, first, count) && end == first + count
    requires firstPage == PageOf(first, s.config.pageTokens) && last == PageOf(end - 1, s.config.pageTokens)
    requires last < s.config.PageCapacity() && Touch(s, e, firstPage, last, WritePlan([], [])).Made?
    ensures var (t, plan) := Touch(s, e, firstPage, last, WritePlan([], [])).value;
      e in t.executions && PrepareWrite(s, e, first, count) == (Settle(t, e, firstPage, end), Written(plan))
  {
  }

  /** The page range of a write that ends at `end`. */
  predicate RangeOk(s: Ledger, e: ExecutionId, firstPage: nat, last: nat, end: nat) {
    && e in s.executions && s.executions[e].capture.NoCapture?
    && firstPage == PageOf(s.executions[e].processed, s.config.pageTokens)
    && last + 1 == PageCount(end, s.config.pageTokens)
    && s.executions[e].processed < end <= s.executions[e].limit
  }

  lemma RangeLoop(s: Ledger, e: ExecutionId, firstPage: nat, last: nat, end: nat)
    requires RangeOk(s, e, firstPage, last, end)
    ensures LoopOk(s, e, firstPage, last)
  {
    PageCountMonotone(end, s.executions[e].limit, s.config.pageTokens);
    PageOfMonotone(s.executions[e].processed, end - 1, s.config.pageTokens);
  }

  lemma RangeCapacity(s: Ledger, end: nat, last: nat)
    requires 0 < end <= s.config.maxContext && last == PageOf(end - 1, s.config.pageTokens)
    ensures last < s.config.PageCapacity()
  {
    PageCountMonotone(end, s.config.maxContext, s.config.pageTokens);
  }

  lemma SettleEffect(s: Ledger, t: Ledger, e: ExecutionId, firstPage: nat, end: nat, plan: WritePlan)
    requires OnlyTable(s, t, e) && Touched(s, t, e, plan) && firstPage <= |t.executions[e].pages|
    requires firstPage == PageOf(s.executions[e].processed, s.config.pageTokens)
    requires PrivateFrom(Settle(t, e, firstPage, end), e, firstPage)
    ensures WriteEffect(s, Settle(t, e, firstPage, end), e, end, plan)
  {
    var s' := Settle(t, e, firstPage, end);
    forall p ensures StorageKept(s, s', p) { assert PageStays(s, t, p); }
  }

  /** The finished loop, settled. */
  lemma LoopSettles(s: Ledger, t: Ledger, e: ExecutionId, firstPage: nat, last: nat, end: nat, plan: WritePlan,
      outside: set<Allocation>)
    requires LoopDone(s, e, firstPage, last, t, plan, outside)
    requires last + 1 == PageCount(end, s.config.pageTokens)
      && firstPage == PageOf(s.executions[e].processed, s.config.pageTokens)
    requires s.executions[e].processed < end <= s.executions[e].limit
    ensures Inv(Settle(t, e, firstPage, end), outside, 0)
    ensures PrivateFrom(Settle(t, e, firstPage, end), e, firstPage) && firstPage <= |t.executions[e].pages|
  {
    SettleInv(t, e, firstPage, end, outside);
    assert ExecutionShape(t, e, e);
    SettleTable(t, e, firstPage, end);
  }

  /** The write whose loop covers pages `firstPage..=last` succeeds with the promised effect. */
  ghost predicate WriteDone(s: Ledger, e: ExecutionId, firstPage: nat, last: nat, end: nat, outside: set<Allocation>)
    requires e in s.executions
  {
    match Touch(s, e, firstPage, last, WritePlan([], []))
    case Exhausted => false
    case Made(result) =>
      && Inv(Settle(result.0, e, firstPage, end), outside, 0)
      && WriteEffect(s, Settle(result.0, e, firstPage, end), e, end, result.1)
  }

  lemma LoopWrites(s: Ledger, e: ExecutionId, firstPage: nat, last: nat, end: nat, outside: set<Allocation>)
    requires Inv(s, outside, 0) && RangeOk(s, e, firstPage, last, end)
    ensures WriteDone(s, e, firstPage, last, end, outside)
  {
    RangeLoop(s, e, firstPage, last, end);
    TouchSucceeds(s, e, firstPage, last, outside);
    var (t, plan) := Touch(s, e, firstPage, last, WritePlan([], [])).value;
    LoopSettles(s, t, e, firstPage, last, end, plan, outside);
    SettleEffect(s, t, e, firstPage, end, plan);
  }

  /** The central promise: a write within the admitted limit never exhausts either budget,
      whatever other executions did since admission, and it keeps the promise to all of them. */
  lemma PrepareWriteInv(s: Ledger, e: ExecutionId, first: nat, count: nat, outside: set<Allocation>)
    requires Inv(s, outside, 0)
    ensures PrepareWrite(s, e, first, count).1.BadWrite? <==> !WriteOk(s, e, first, count)
    ensures !PrepareWrite(s, e, first, count).1.OutOfBudget?
    ensures Inv(PrepareWrite(s, e, first, count).0, outside, 0)
  {
    if WriteOk(s, e, first, count) {
      var end: nat := first + count;
      var firstPage, last := PageOf(first, s.config.pageTokens), PageOf(end - 1, s.config.pageTokens);
      LoopWrites(s, e, firstPage, last, end, outside);
      RangeCapacity(s, end, last);
      PrepareWriteFields(s, e, first, count, firstPage, last, end);
    } else {
      assert PrepareWrite(s, e, first, count) == (s, BadWrite);
    }
  }

  /** A write changes only the writer's record and table; every page from the written position
      on ends with reference count one. */
  lemma PrepareWriteEffect(s: Ledger, e: ExecutionId, first: nat, count: nat, end: nat, outside: set<Allocation>)
    requires Inv(s, outside, 0) && WriteOk(s, e, first, count) && end == first + count
    ensures PrepareWrite(s, e, first, count).1.Written?
    ensures WriteEffect(s, PrepareWrite(s, e, first, count).0, e, end, PrepareWrite(s, e, first, count).1.plan)
  {
    var firstPage, last := PageOf(first, s.config.pageTokens), PageOf(end - 1, s.config.pageTokens);
    LoopWrites(s, e, firstPage, last, end, outside);
    RangeCapacity(s, end, last);
    PrepareWriteFields(s, e, first, count, firstPage, last, end);
  }
}
