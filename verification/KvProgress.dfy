/** Memory statistics, what eviction can give back, and why admission makes progress. */
module KvProgress {
  import opened FreeRanges
  import opened BytePools
  import opened Totals
  import opened PageMath
  import opened KvLedger
  import opened KvBooks
  import opened KvRecords
  import opened KvInvariant
  import opened KvReclaim
  import opened KvAdmission
  import opened KvAccounts
  import opened KvReports

  // -------------------------------------------------------------- memory statistics

  ghost function IdleCheckpoints(s: Ledger): map<CheckpointId, Checkpoint> {
    map c | c in s.checkpoints && Idle(s.checkpoints[c]) :: s.checkpoints[c]
  }

  ghost function IdleReferences(s: Ledger, p: PageId): nat { Sum(IdleCheckpoints(s), HeldBy(p)) }

  /** Pages that only idle checkpoints refer to. */
  ghost function IdlePages(s: Ledger): map<PageId, Page> {
    map p | p in s.pages && IdleReferences(s, p) > 0 && IdleReferences(s, p) == s.pages[p].references :: s.pages[p]
  }

  ghost function Reclaimable(s: Ledger): nat {
    StateSum(IdleCheckpoints(s)) + StorageSum(IdlePages(s))
  }

  datatype MemoryStats = MemoryStats(
    pages: nat, shared: nat, state: nat, buffers: nat, captures: nat,
    reclaimable: nat, nonreclaimable: nat, other: nat, reservedGrowth: nat, slack: nat)

  function SharedBytes(): Page -> nat { (p: Page) => if p.references > 1 then p.storage.bytes else 0 }

  /** Bytes of a page that hold no valid token, and those that do. */
  function Unused(p: Page, pageTokens: nat, bytesPerToken: nat): nat {
    Less(pageTokens, p.validTokens) * bytesPerToken
  }

  function SlackOf(config: ValidConfig): Page -> nat {
    (p: Page) => Unused(p, config.pageTokens, PageOf(config.pageBytes, config.pageTokens))
  }

  function FilledOf(config: ValidConfig): Page -> nat {
    (p: Page) => p.validTokens * PageOf(config.pageBytes, config.pageTokens)
  }

  /** The final checks and differences of a report; `Exhausted` where the source refuses it. */
  function Report(config: ValidConfig, used: nat, reclaimable: nat, within: bool,
      parts: MemoryStats): Result<MemoryStats> {
    var accounted := parts.pages + parts.state + parts.buffers + parts.captures;
    if accounted > used || reclaimable > used || InPage(config.pageBytes, config.pageTokens) != 0
        || !within then Exhausted
    else Made(parts.(reclaimable := reclaimable, nonreclaimable := used - reclaimable, other := used - accounted))
  }

  /** The parts that are summed over the records. */
  ghost function StatParts(s: Ledger): MemoryStats {
    MemoryStats(PageBytes(s), Sum(s.pages, SharedBytes()), StateBytes(s), BufferBytes(s), CaptureBytes(s), 0, 0, 0,
                Reserved(s) * s.config.pageBytes, Sum(s.pages, SlackOf(s.config)))
  }

  predicate AllWithin(pages: map<PageId, Page>, pageTokens: nat) {
    forall p :: p in pages ==> pages[p].validTokens <= pageTokens
  }

  ghost function Stats(s: Ledger): Result<MemoryStats> {
    Report(s.config, s.pool.used, Reclaimable(s), AllWithin(s.pages, s.config.pageTokens), StatParts(s))
  }

  lemma SumWithin<K(!new), V>(part: map<K, V>, m: map<K, V>, f: V -> nat)
    requires part.Keys <= m.Keys && (forall k :: k in part ==> part[k] == m[k])
    ensures Sum(part, f) <= Sum(m, f)
  {
    SumMonotone(part, f, m, f);
  }

  lemma {:induction false} SumAdd<K(!new), V>(m: map<K, V>, f: V -> nat, g: V -> nat, h: V -> nat)
    requires forall k :: k in m ==> f(m[k]) + g(m[k]) == h(m[k])
    ensures Sum(m, f) + Sum(m, g) == Sum(m, h)
    decreases |m|
  {
    if m == map[] {
      SumZero(m, f);
      SumZero(m, g);
      SumZero(m, h);
    } else {
      var k :| k in m;
      SumRemove(m, f, k);
      SumRemove(m, g, k);
      SumRemove(m, h, k);
      assert (m - {k}).Keys == m.Keys - {k};
      SumAdd(m - {k}, f, g, h);
    }
  }

  /** A page is its slack and its filled part, when it is a whole number of tokens. */
  lemma SlackAndFilled(config: ValidConfig, p: Page)
    requires p.validTokens <= config.pageTokens && p.storage.bytes == config.pageBytes
    requires InPage(config.pageBytes, config.pageTokens) == 0
    ensures SlackOf(config)(p) + FilledOf(config)(p) == BytesOf(StorageOf())(p)
  {
    var pt, v, q := config.pageTokens, p.validTokens, PageOf(config.pageBytes, config.pageTokens);
    PageOfIff(config.pageBytes, q, pt);
    Distributes(pt - v, v, q);
    Commutes(pt, q);
  }

  lemma Distributes(a: nat, b: nat, q: nat)
    ensures a * q + b * q == (a + b) * q
  {
  }

  lemma Commutes(a: nat, q: nat)
    ensures a * q == q * a
  {
  }

  lemma SlackTotal(s: Ledger, outside: set<Allocation>)
    requires Inv(s, outside, 0) && InPage(s.config.pageBytes, s.config.pageTokens) == 0
    ensures Sum(s.pages, SlackOf(s.config)) + Sum(s.pages, FilledOf(s.config)) == PageBytes(s)
  {
    forall p | p in s.pages
      ensures SlackOf(s.config)(s.pages[p]) + FilledOf(s.config)(s.pages[p]) == BytesOf(StorageOf())(s.pages[p])
    {
      HeldPagePasses(s, p, outside);
      assert PageShape(s, p);
      SlackAndFilled(s.config, s.pages[p]);
    }
    SumAdd(s.pages, SlackOf(s.config), FilledOf(s.config), BytesOf(StorageOf()));
  }

  lemma ReclaimableWithin(s: Ledger)
    ensures Reclaimable(s) <= StateBytes(s) + PageBytes(s)
  {
    SumWithin(IdleCheckpoints(s), s.checkpoints, BytesOf(SnapshotSlot()));
    SumWithin(IdleCheckpoints(s), s.checkpoints, BytesOf(HiddenSlot()));
    SumWithin(IdlePages(s), s.pages, BytesOf(StorageOf()));
  }

  lemma SharedWithin(s: Ledger)
    ensures Sum(s.pages, SharedBytes()) <= PageBytes(s)
  {
    SumMonotone(s.pages, SharedBytes(), s.pages, BytesOf(StorageOf()));
  }

  lemma PagesWithin(s: Ledger, outside: set<Allocation>)
    requires Inv(s, outside, 0)
    ensures AllWithin(s.pages, s.config.pageTokens)
  {
    forall p | p in s.pages ensures s.pages[p].validTokens <= s.config.pageTokens { HeldPagePasses(s, p, outside); }
  }

  /** Statistics are always available when the page size is a whole number of tokens; nothing is
      left unaccounted but the bytes the caller allocated itself. */
  lemma StatsExact(s: Ledger, outside: set<Allocation>)
    requires Inv(s, outside, 0)
    ensures Stats(s).Made? <==> InPage(s.config.pageBytes, s.config.pageTokens) == 0
    ensures Stats(s).Made? ==>
      var stats := Stats(s).value;
      && stats.other == SetBytes(outside)
      && stats.pages + stats.state + stats.buffers + stats.captures + stats.other == s.pool.used
      && stats.reclaimable + stats.nonreclaimable == s.pool.used
      && stats.shared <= stats.pages && s.pool.used <= s.config.gpuBytes
      && stats.slack + Sum(s.pages, FilledOf(s.config)) == stats.pages
  {
    if InPage(s.config.pageBytes, s.config.pageTokens) == 0 { SlackTotal(s, outside); }
    PoolConservation(s, outside);
    ReclaimableWithin(s);
    SharedWithin(s);
    PagesWithin(s, outside);
    PoolUsed(s);
  }

  /** A valid configuration does not ensure it: pages of two tokens in three bytes. */
  const Undivided := Config(1024, 1024, 2, 1, 2, 3, 1, 1, 1, 8)

  lemma StatsRefused()
    ensures Undivided.Valid() && InPage(Undivided.pageBytes, Undivided.pageTokens) != 0
    ensures Stats(Initial(Undivided)).Exhausted?
  {
    assert PageCount(2, 2) == 1;
    InvInitial(Undivided);
    StatsExact(Initial(Undivided), {});
  }

  // ------------------------------------------------------------------- reclamation

  ghost predicate InOrder(s: Ledger, order: seq<CheckpointId>) {
    && (forall i :: 0 <= i < |order| ==> order[i] in s.checkpoints && Idle(s.checkpoints[order[i]]))
    && (forall i, j :: 0 <= i < j < |order| ==> order[i] != order[j])
  }

  ghost function EraseEach(s: Ledger, order: seq<CheckpointId>): Ledger
    decreases |order|
  {
    if order == [] then s else EraseEach(ReleaseCheckpoint(s, order[0]).0, order[1..])
  }

  function Listed(order: seq<CheckpointId>): set<CheckpointId> { set c | c in order }

  lemma EraseStep(s: Ledger, order: seq<CheckpointId>)
    requires InOrder(s, order) && order != []
    ensures ReleaseCheckpoint(s, order[0]).0 == EraseCheckpoint(s, order[0])
    ensures EraseCheckpoint(s, order[0]).executions == s.executions
    ensures EraseCheckpoint(s, order[0]).checkpoints == s.checkpoints - {order[0]}
    ensures InOrder(EraseCheckpoint(s, order[0]), order[1..])
  {
    ReleaseAllFrame(s, s.checkpoints[order[0]].pages, s.checkpoints, s.executions);
  }

  lemma ListedStep(cs: map<CheckpointId, Checkpoint>, order: seq<CheckpointId>)
    requires order != []
    ensures cs - Listed(order) == (cs - {order[0]}) - Listed(order[1..])
  {
    assert Listed(order) == {order[0]} + Listed(order[1..]);
  }

  lemma {:induction false} EraseEachInv(s: Ledger, order: seq<CheckpointId>, outside: set<Allocation>)
    requires Inv(s, outside, 0) && InOrder(s, order)
    ensures var s' := EraseEach(s, order);
      && Inv(s', outside, 0) && Shrinks(s, s') && s'.executions == s.executions
      && s'.checkpoints == s.checkpoints - Listed(order)
    decreases |order|
  {
    if order == [] {
      ShrinksSelf(s);
      assert s.checkpoints - Listed(order) == s.checkpoints;
    } else {
      var t := EraseCheckpoint(s, order[0]);
      EraseStep(s, order);
      EraseCheckpointInv(s, order[0], outside);
      EraseEachInv(t, order[1..], outside);
      ShrinksTrans(s, t, EraseEach(s, order));
      ListedStep(s.checkpoints, order);
    }
  }

  lemma SumSplit<K(!new), V>(m: map<K, V>, part: map<K, V>, f: V -> nat)
    requires part.Keys <= m.Keys && (forall k :: k in part ==> part[k] == m[k])
    ensures Sum(m, f) == Sum(part, f) + Sum(m - part.Keys, f)
  {
    assert Units(Weights(m, f)) == Units(Weights(part, f)) + Units(Weights(m - part.Keys, f));
    assert Units(Weights(part, f)) !! Units(Weights(m - part.Keys, f));
  }

  lemma SumSame<K(!new), V>(m: map<K, V>, n: map<K, V>, f: V -> nat)
    requires m.Keys == n.Keys && (forall k :: k in m ==> f(m[k]) == f(n[k]))
    ensures Sum(m, f) == Sum(n, f)
  {
    assert Weights(m, f) == Weights(n, f);
  }

  /** After the idle checkpoints are gone, exactly the pages only they referred to are gone. */
  lemma PageGone(s: Ledger, s': Ledger, p: PageId)
    requires Refs(s, multiset{}) && Refs(s', multiset{}) && p in s.pages
    requires s'.executions == s.executions && s'.checkpoints == s.checkpoints - IdleCheckpoints(s).Keys
    ensures p in s'.pages <==> p !in IdlePages(s)
  {
    assert RefAt(s, multiset{}, p) && RefAt(s', multiset{}, p);
    SumSplit(s.checkpoints, IdleCheckpoints(s), HeldBy(p));
  }

  lemma PagesGone(s: Ledger, s': Ledger)
    requires Refs(s, multiset{}) && Refs(s', multiset{}) && Shrinks(s, s')
    requires s'.executions == s.executions && s'.checkpoints == s.checkpoints - IdleCheckpoints(s).Keys
    ensures PageBytes(s) == PageBytes(s') + StorageSum(IdlePages(s))
  {
    var rest := s.pages - IdlePages(s).Keys;
    forall p ensures p in s'.pages <==> p in rest {
      assert Kept(s, s', p);
      if p in s.pages { PageGone(s, s', p); }
    }
    forall p | p in rest ensures BytesOf(StorageOf())(rest[p]) == BytesOf(StorageOf())(s'.pages[p]) {
      assert Kept(s, s', p);
    }
    SumSplit(s.pages, IdlePages(s), BytesOf(StorageOf()));
    SumSame(rest, s'.pages, BytesOf(StorageOf()));
  }

  /** `reclaimable` is exactly what evicting all idle checkpoints frees, in any order. */
  lemma ReclaimExact(s: Ledger, order: seq<CheckpointId>, outside: set<Allocation>)
    requires Inv(s, outside, 0) && InOrder(s, order) && Listed(order) == IdleCheckpoints(s).Keys
    ensures EraseEach(s, order).pool.used + Reclaimable(s) == s.pool.used
    ensures EraseEach(s, order).checkpoints == s.checkpoints - IdleCheckpoints(s).Keys
  {
    var s' := EraseEach(s, order);
    EraseEachInv(s, order, outside);
    PoolConservation(s, outside);
    PoolConservation(s', outside);
    PagesGone(s, s');
    SumSplit(s.checkpoints, IdleCheckpoints(s), BytesOf(SnapshotSlot()));
    SumSplit(s.checkpoints, IdleCheckpoints(s), BytesOf(HiddenSlot()));
  }

  // ---------------------------------------------------------------------- progress

  /** A policy that never declines when something is eligible. */
  ghost predicate Willing(select: Selector) {
    forall protect, eligible, cause :: eligible != {} ==> select(protect, eligible, cause) in eligible
  }

  /** Without a policy the ledger takes the oldest eligible checkpoint. */
  lemma {:induction false} OldestExists(eligible: set<CheckpointId>)
    requires eligible != {}
    ensures exists c: CheckpointId :: IsOldest(eligible, c)
    decreases |eligible|
  {
    var c: CheckpointId :| c in eligible;
    if eligible == {c} {
      assert IsOldest(eligible, c);
    } else {
      var rest := eligible - {c};
      assert eligible == rest + {c};
      OldestExists(rest);
      var o: CheckpointId :| IsOldest(rest, o);
      var first := if c < o then c else o;
      forall d | d in eligible ensures first <= d { if d != c { assert d in rest; } }
      assert IsOldest(eligible, first);
    }
  }

  predicate IsOldest(eligible: set<CheckpointId>, c: CheckpointId) {
    c in eligible && forall d :: d in eligible ==> c <= d
  }

  function Oldest(protect: CheckpointId, eligible: set<CheckpointId>, cause: Cause): CheckpointId {
    if eligible == {} then 0
    else
      OldestExists(eligible);
      assert forall c, d: CheckpointId :: IsOldest(eligible, c) && IsOldest(eligible, d) ==> c == d;
      var c: CheckpointId :| IsOldest(eligible, c);
      c
  }

  /** Without a policy the ledger never declines. */
  lemma OldestWilling()
    ensures Willing((p, e, c) => Oldest(p, e, c))
  {
    forall protect: CheckpointId, eligible: set<CheckpointId>, cause: Cause | eligible != {}
      ensures Oldest(protect, eligible, cause) in eligible
    {
      assert IsOldest(eligible, Oldest(protect, eligible, cause));
    }
  }

  /** No executions, no pins, and no caller allocations. */
  ghost predicate Quiescent(s: Ledger) {
    Inv(s, {}, 0) && s.executions == map[] && (forall c :: c in s.checkpoints ==> s.checkpoints[c].pins == 0)
  }

  lemma QuiescentIdle(s: Ledger, c: CheckpointId)
    requires Quiescent(s) && c in s.checkpoints
    ensures Idle(s.checkpoints[c])
  {
    assert CheckpointShape(s, c);
    SumZero(s.executions, Borrows(c));
  }

  /** With no checkpoint left the whole pool is one free range and the index is empty. */
  lemma Emptied(s: Ledger)
    requires Quiescent(s) && s.checkpoints == map[]
    ensures s.pool.free == Fresh(s.config.gpuBytes, Gpu).free && s.indexUsed == 0 && Reserved(s) == 0
  {
    forall p ensures p !in s.pages {
      assert RefAt(s, multiset{}, p);
      SumZero(s.executions, UsesOf(p));
      SumZero(s.checkpoints, HeldBy(p));
    }
    assert s.pages == map[];
    assert s.pool.live != [] ==> s.pool.live[0] in s.pool.live;
    forall o ensures Stored(s, o) == Vacant {}
    forall x ensures x !in s.pool.live {
      assert Accounted(s, {}, x);
    }
    EmptyPoolWhole(s.pool);
    SumZero(s.executions, ExecutionCharge(s.config));
    SumZero(s.checkpoints, CheckpointCharge());
    SumZero(s.executions, Reservation(s));
  }

  lemma {:induction false} RoomComes(s: Ledger, limit: nat, n: nat, select: Selector)
    requires Quiescent(s) && Willing(select)
    requires s.config.ExecutionBytes() + n * PAGE_INFO_BYTES <= s.config.indexBytes
    requires TakeAll(Fresh(s.config.gpuBytes, Gpu).free, Plan(s.config, n), ALIGNMENT).AllFit?
    ensures MakeRoom(s, NewPages(n), 0, select).1.Room?
    decreases |s.checkpoints|
  {
    var pressure := Pressure(s, NewPages(n));
    if pressure.Lacks? {
      if s.checkpoints == map[] { EmptiedFits(s, n); }
      QuiescentEvicts(s, pressure.cause, select);
      RoomComes(EvictIdle(s, 0, pressure.cause, select).value, limit, n, select);
    }
  }

  /** An empty ledger has room for what fits a fresh one. */
  lemma EmptiedFits(s: Ledger, n: nat)
    requires Quiescent(s) && s.checkpoints == map[]
    requires s.config.ExecutionBytes() + n * PAGE_INFO_BYTES <= s.config.indexBytes
    requires TakeAll(Fresh(s.config.gpuBytes, Gpu).free, Plan(s.config, n), ALIGNMENT).AllFit?
    ensures Pressure(s, NewPages(n)).Room?
  {
    Emptied(s);
  }

  /** A willing policy evicts while anything is left, and the ledger stays quiescent. */
  lemma QuiescentEvicts(s: Ledger, cause: Cause, select: Selector)
    requires Quiescent(s) && Willing(select) && s.checkpoints != map[]
    ensures EvictIdle(s, 0, cause, select).Made?
    ensures var u := EvictIdle(s, 0, cause, select).value;
      Quiescent(u) && u.config == s.config && |u.checkpoints| < |s.checkpoints|
  {
    var c :| c in s.checkpoints;
    QuiescentIdle(s, c);
    assert Ids(s);
    assert c in Eligible(s, 0);
    EvictIdleInv(s, 0, cause, select, {});
    EvictShrinks(s, 0, cause, select);
  }

  lemma FreshFits(s: Ledger, limit: nat)
    requires s.executions == map[] && BatchFits(s, 0, limit) == Done(true)
    ensures var n := Growth(limit, 0, 0, s.config.pageTokens);
      && BeginDemand(s, 0, limit) == NewPages(n)
      && s.config.ExecutionBytes() + n * PAGE_INFO_BYTES <= s.config.indexBytes
      && TakeAll(Fresh(s.config.gpuBytes, Gpu).free, Plan(s.config, n), ALIGNMENT).AllFit?
  {
    SumZero(s.executions, Reservation(s));
  }

  /** An idle ledger always admits a fresh request that passed the static check. */
  lemma AdmissionProgress(s: Ledger, limit: nat, select: Selector)
    requires Quiescent(s) && Willing(select) && BatchFits(s, 0, limit) == Done(true)
    ensures BeginBatch(s, 0, limit, select).1.Done?
  {
    BeginBatchInv(s, 0, limit, select, {});
    BeginFields(s, 0, limit, select);
    FreshFits(s, limit);
    RoomComes(s, limit, Growth(limit, 0, 0, s.config.pageTokens), select);
  }

  /** In particular with no policy set. */
  lemma DefaultProgress(s: Ledger, limit: nat)
    requires Quiescent(s) && BatchFits(s, 0, limit) == Done(true)
    ensures BeginBatch(s, 0, limit, (p, e, c) => Oldest(p, e, c)).1.Done?
  {
    OldestWilling();
    AdmissionProgress(s, limit, (p, e, c) => Oldest(p, e, c));
  }
}
