/** What the ledger reports about itself: its self-check, its memory statistics and the bytes
    an eviction of all idle checkpoints would free. */
module KvReports {
  import opened FreeRanges
  import opened BytePools
  import opened Totals
  import opened PageMath
  import opened KvLedger
  import opened KvBooks
  import opened KvRecords
  import opened KvInvariant
  import opened KvReclaim
  import opened KvAccounts

  // ---------------------------------------------------------------- sums, regrouped

  ghost function Counts(ps: set<PageId>, f: PageId -> nat): map<PageId, nat> { map p | p in ps :: f(p) }

  predicate PlusAt(f: PageId -> nat, g: PageId -> nat, h: PageId -> nat, p: PageId) { h(p) == f(p) + g(p) }

  lemma CountsDrop(ps: set<PageId>, f: PageId -> nat, p: PageId)
    requires p in ps
    ensures Total(Counts(ps, f)) == f(p) + Total(Counts(ps - {p}, f))
  {
    TotalRemove(Counts(ps, f), p);
    assert Counts(ps, f) - {p} == Counts(ps - {p}, f);
  }

  lemma {:induction false} CountsPlus(ps: set<PageId>, f: PageId -> nat, g: PageId -> nat, h: PageId -> nat)
    requires forall p :: PlusAt(f, g, h, p)
    ensures Total(Counts(ps, h)) == Total(Counts(ps, f)) + Total(Counts(ps, g))
    decreases |ps|
  {
    if ps == {} {
      TotalZero(Counts(ps, f));
      TotalZero(Counts(ps, g));
      TotalZero(Counts(ps, h));
    } else {
      var p :| p in ps;
      var rest := ps - {p};
      CountsPlus(rest, f, g, h);
      assert PlusAt(f, g, h, p);
      CountsDrop(ps, f, p);
      CountsDrop(ps, g, p);
      CountsDrop(ps, h, p);
    }
  }

  lemma CountsZero(ps: set<PageId>, f: PageId -> nat)
    requires forall p :: p in ps ==> f(p) == 0
    ensures Total(Counts(ps, f)) == 0
  {
    TotalZero(Counts(ps, f));
  }

  lemma CountsSame(ps: set<PageId>, f: PageId -> nat, g: PageId -> nat)
    requires forall p :: p in ps ==> f(p) == g(p)
    ensures Total(Counts(ps, f)) == Total(Counts(ps, g))
  {
    assert Counts(ps, f) == Counts(ps, g);
  }

  predicate AllIn(ps: set<PageId>, ids: seq<PageId>) { forall p :: p in ids ==> p in ps }

  function OccursIn(ids: seq<PageId>): PageId -> nat { p => multiset(ids)[p] }

  lemma {:induction false} CountsTable(ps: set<PageId>, ids: seq<PageId>)
    requires AllIn(ps, ids)
    ensures Total(Counts(ps, OccursIn(ids))) == |ids|
    decreases |ids|
  {
    if ids == [] {
      CountsZero(ps, OccursIn(ids));
    } else {
      var p, rest := ids[0], ids[1..];
      assert ids == [p] + rest;
      assert multiset(ids) == multiset{p} + multiset(rest);
      CountsTable(ps, rest);
      TotalUpdate(Counts(ps, OccursIn(rest)), p, OccursIn(ids)(p));
      assert Counts(ps, OccursIn(ids)) == Counts(ps, OccursIn(rest))[p := OccursIn(ids)(p)];
    }
  }

  function UseCount(): Execution -> nat {
    (x: Execution) => if x.capture.Capture? then |x.pages| + |x.pages| else |x.pages|
  }
  function KeepCount(): Checkpoint -> nat { (c: Checkpoint) => |c.pages| }

  ghost function UsesIn(es: map<ExecutionId, Execution>): PageId -> nat { p => Sum(es, UsesOf(p)) }
  ghost function KeptIn(cs: map<CheckpointId, Checkpoint>): PageId -> nat { p => Sum(cs, HeldBy(p)) }
  function UsesBy(x: Execution): PageId -> nat { p => Uses(x, p) }

  lemma UsesDrop(es: map<ExecutionId, Execution>, e: ExecutionId, p: PageId)
    requires e in es
    ensures PlusAt(UsesIn(es - {e}), UsesBy(es[e]), UsesIn(es), p)
  {
    SumRemove(es, UsesOf(p), e);
  }

  lemma KeptDrop(cs: map<CheckpointId, Checkpoint>, c: CheckpointId, p: PageId)
    requires c in cs
    ensures PlusAt(KeptIn(cs - {c}), OccursIn(cs[c].pages), KeptIn(cs), p)
  {
    SumRemove(cs, HeldBy(p), c);
  }

  lemma AddExecution(ps: set<PageId>, es: map<ExecutionId, Execution>, e: ExecutionId)
    requires e in es
    ensures Total(Counts(ps, UsesIn(es))) == Total(Counts(ps, UsesIn(es - {e}))) + Total(Counts(ps, UsesBy(es[e])))
    ensures Sum(es, UseCount()) == Sum(es - {e}, UseCount()) + UseCount()(es[e])
  {
    forall p ensures PlusAt(UsesIn(es - {e}), UsesBy(es[e]), UsesIn(es), p) { UsesDrop(es, e, p); }
    CountsPlus(ps, UsesIn(es - {e}), UsesBy(es[e]), UsesIn(es));
    SumRemove(es, UseCount(), e);
  }

  lemma AddCheckpoint(ps: set<PageId>, cs: map<CheckpointId, Checkpoint>, c: CheckpointId)
    requires c in cs
    ensures Total(Counts(ps, KeptIn(cs)))
      == Total(Counts(ps, KeptIn(cs - {c}))) + Total(Counts(ps, OccursIn(cs[c].pages)))
    ensures Sum(cs, KeepCount()) == Sum(cs - {c}, KeepCount()) + KeepCount()(cs[c])
  {
    forall p ensures PlusAt(KeptIn(cs - {c}), OccursIn(cs[c].pages), KeptIn(cs), p) { KeptDrop(cs, c, p); }
    CountsPlus(ps, KeptIn(cs - {c}), OccursIn(cs[c].pages), KeptIn(cs));
    SumRemove(cs, KeepCount(), c);
  }

  lemma UsesNone(ps: set<PageId>)
    ensures Total(Counts(ps, UsesIn(map[]))) == 0
  {
    var none: map<ExecutionId, Execution> := map[];
    forall p ensures UsesIn(none)(p) == 0 { SumZero(none, UsesOf(p)); }
    CountsZero(ps, UsesIn(none));
  }

  lemma KeptNone(ps: set<PageId>)
    ensures Total(Counts(ps, KeptIn(map[]))) == 0
  {
    var none: map<CheckpointId, Checkpoint> := map[];
    forall p ensures KeptIn(none)(p) == 0 { SumZero(none, HeldBy(p)); }
    CountsZero(ps, KeptIn(none));
  }

  /** References counted page by page and counted execution by execution are the same. */
  lemma {:induction false} CountsExecutions(ps: set<PageId>, es: map<ExecutionId, Execution>)
    requires forall e :: e in es ==> AllIn(ps, es[e].pages)
    ensures Total(Counts(ps, UsesIn(es))) == Sum(es, UseCount())
    decreases |es|
  {
    if es == map[] {
      SumZero(es, UseCount());
      UsesNone(ps);
    } else {
      var e :| e in es;
      KeysDrop(es, e);
      CountsExecutions(ps, es - {e});
      CountsExecution(ps, es[e]);
      AddExecution(ps, es, e);
    }
  }

  lemma CountsExecution(ps: set<PageId>, x: Execution)
    requires AllIn(ps, x.pages)
    ensures Total(Counts(ps, UsesBy(x))) == UseCount()(x)
  {
    CountsTable(ps, x.pages);
    if x.capture.Capture? {
      forall p ensures PlusAt(OccursIn(x.pages), OccursIn(x.pages), UsesBy(x), p) {}
      CountsPlus(ps, OccursIn(x.pages), OccursIn(x.pages), UsesBy(x));
    } else {
      CountsSame(ps, OccursIn(x.pages), UsesBy(x));
    }
  }

  lemma {:induction false} CountsCheckpoints(ps: set<PageId>, cs: map<CheckpointId, Checkpoint>)
    requires forall c :: c in cs ==> AllIn(ps, cs[c].pages)
    ensures Total(Counts(ps, KeptIn(cs))) == Sum(cs, KeepCount())
    decreases |cs|
  {
    if cs == map[] {
      SumZero(cs, KeepCount());
      KeptNone(ps);
    } else {
      var c :| c in cs;
      KeysDrop(cs, c);
      CountsCheckpoints(ps, cs - {c});
      CountsTable(ps, cs[c].pages);
      AddCheckpoint(ps, cs, c);
    }
  }

  function References(): Page -> nat { (p: Page) => p.references }

  lemma TablesIn(s: Ledger, loose: set<Allocation>, charge: nat)
    requires Books(s, multiset{}, loose, charge)
    ensures forall e :: e in s.executions ==> AllIn(s.pages.Keys, s.executions[e].pages)
    ensures forall c :: c in s.checkpoints ==> AllIn(s.pages.Keys, s.checkpoints[c].pages)
  {
    forall e | e in s.executions ensures AllIn(s.pages.Keys, s.executions[e].pages) {
      forall i: nat | i < |s.executions[e].pages| ensures s.executions[e].pages[i] in s.pages {
        HeldPresent(s, e, i, loose, charge);
      }
    }
    forall c | c in s.checkpoints ensures AllIn(s.pages.Keys, s.checkpoints[c].pages) {
      forall i: nat | i < |s.checkpoints[c].pages| ensures s.checkpoints[c].pages[i] in s.pages {
        KeptPresent(s, c, i, loose, charge);
      }
    }
  }

  function ReferencesIn(s: Ledger): PageId -> nat { p => if p in s.pages then s.pages[p].references else 0 }

  lemma ReferencesSum(s: Ledger)
    ensures Total(Counts(s.pages.Keys, ReferencesIn(s))) == Sum(s.pages, References())
  {
    assert Counts(s.pages.Keys, ReferencesIn(s)) == Weights(s.pages, References());
  }

  lemma ReferencesPlus(s: Ledger)
    requires Refs(s, multiset{})
    ensures Total(Counts(s.pages.Keys, ReferencesIn(s)))
         == Total(Counts(s.pages.Keys, UsesIn(s.executions))) + Total(Counts(s.pages.Keys, KeptIn(s.checkpoints)))
  {
    forall p ensures PlusAt(UsesIn(s.executions), KeptIn(s.checkpoints), ReferencesIn(s), p) {
      assert RefAt(s, multiset{}, p);
    }
    CountsPlus(s.pages.Keys, UsesIn(s.executions), KeptIn(s.checkpoints), ReferencesIn(s));
  }

  /** All reference counts together are the entries of all page tables, pending captures twice. */
  lemma ReferenceTotal(s: Ledger, loose: set<Allocation>, charge: nat)
    requires Books(s, multiset{}, loose, charge)
    ensures Sum(s.pages, References()) == Sum(s.executions, UseCount()) + Sum(s.checkpoints, KeepCount())
  {
    TablesIn(s, loose, charge);
    CountsExecutions(s.pages.Keys, s.executions);
    CountsCheckpoints(s.pages.Keys, s.checkpoints);
    ReferencesPlus(s);
    ReferencesSum(s);
  }

  // ------------------------------------------------------------------- self-check

  predicate PagePasses(config: ValidConfig, p: Page) {
    p.references != 0 && p.validTokens <= config.pageTokens && InPage(p.firstToken, config.pageTokens) == 0
  }

  predicate ExecutionPasses(s: Ledger, x: Execution) {
    && x.processed <= s.config.maxContext && x.limit <= s.config.maxContext && x.processed <= x.limit
    && |x.pages| == PageCount(x.processed, s.config.pageTokens)
    && (x.capture.Capture? ==> x.capture.snapshot in s.pool.live && x.capture.hidden in s.pool.live)
  }

  predicate CheckpointPasses(config: ValidConfig, c: Checkpoint) {
    && c.processed <= config.maxContext && c.localTokens <= config.windowTokens
    && c.localStart + c.localTokens == c.processed
    && |c.pages| == PageCount(c.processed, config.pageTokens)
  }

  predicate Passes(s: Ledger) {
    && (forall p :: p in s.pages ==> PagePasses(s.config, s.pages[p]))
    && (forall e :: e in s.executions ==> ExecutionPasses(s, s.executions[e]))
    && (forall c :: c in s.checkpoints ==> CheckpointPasses(s.config, s.checkpoints[c]))
    && s.indexUsed <= s.config.indexBytes && s.pool.used <= s.config.gpuBytes
  }

  lemma Aligned(i: nat, pt: nat)
    requires pt > 0
    ensures InPage(i * pt, pt) == 0
    decreases i
  {
    if i > 0 {
      assert i * pt == (i - 1) * pt + pt;
      Aligned(i - 1, pt);
    }
  }

  /** Some execution or checkpoint holds every page. */
  lemma PageHolder(s: Ledger, p: PageId)
    requires Refs(s, multiset{}) && p in s.pages
    ensures (exists e :: e in s.executions && p in s.executions[e].pages)
            || (exists c :: c in s.checkpoints && p in s.checkpoints[c].pages)
  {
    assert RefAt(s, multiset{}, p);
    if Sum(s.executions, UsesOf(p)) > 0 {
      if forall e :: e in s.executions ==> Uses(s.executions[e], p) == 0 { SumZero(s.executions, UsesOf(p)); }
      var e :| e in s.executions && Uses(s.executions[e], p) > 0;
      assert p in multiset(s.executions[e].pages);
    } else {
      if forall c :: c in s.checkpoints ==> HeldBy(p)(s.checkpoints[c]) == 0 { SumZero(s.checkpoints, HeldBy(p)); }
      var c :| c in s.checkpoints && HeldBy(p)(s.checkpoints[c]) > 0;
      assert p in multiset(s.checkpoints[c].pages);
    }
  }

  /** What a table says of its pages. */
  lemma TablePagePasses(s: Ledger, pages: seq<PageId>, tokens: nat, p: PageId)
    requires Table(s, pages, tokens) && p in pages
    ensures p in s.pages && s.pages[p].validTokens <= s.config.pageTokens
    ensures InPage(s.pages[p].firstToken, s.config.pageTokens) == 0
  {
    var i: nat :| i < |pages| && pages[i] == p;
    assert PageAt(s, pages, tokens, i);
    Aligned(i, s.config.pageTokens);
  }

  /** Every page is held by someone, so its token range is that of a table entry. */
  lemma HeldPagePasses(s: Ledger, p: PageId, outside: set<Allocation>)
    requires Inv(s, outside, 0) && p in s.pages
    ensures PagePasses(s.config, s.pages[p])
  {
    PageHolder(s, p);
    if e :| e in s.executions && p in s.executions[e].pages {
      assert ExecutionShape(s, e, 0);
      TablePagePasses(s, s.executions[e].pages, s.executions[e].processed, p);
    } else {
      var c :| c in s.checkpoints && p in s.checkpoints[c].pages;
      assert CheckpointShape(s, c);
      TablePagePasses(s, s.checkpoints[c].pages, s.checkpoints[c].processed, p);
    }
    assert RefAt(s, multiset{}, p);
  }

  /** The self-check passes in every state that keeps the invariant. */
  lemma SelfCheckPasses(s: Ledger, outside: set<Allocation>)
    requires Inv(s, outside, 0)
    ensures Passes(s)
    ensures Sum(s.pages, References()) == Sum(s.executions, UseCount()) + Sum(s.checkpoints, KeepCount())
  {
    ReferenceTotal(s, outside, 0);
    forall p | p in s.pages ensures PagePasses(s.config, s.pages[p]) { HeldPagePasses(s, p, outside); }
    forall e | e in s.executions ensures ExecutionPasses(s, s.executions[e]) {
      assert ExecutionShape(s, e, 0);
      assert OwnerOk(s, outside, CaptureSnapshot(e)) && OwnerOk(s, outside, CaptureHidden(e));
    }
    forall c | c in s.checkpoints ensures CheckpointPasses(s.config, s.checkpoints[c]) { assert CheckpointShape(s, c); }
    PoolUsed(s);
  }

  lemma PoolUsed(s: Ledger)
    requires PoolOk(s)
    ensures s.pool.used <= s.config.gpuBytes
  {
  }
}
