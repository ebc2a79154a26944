/** The cache ledger as a state machine: the state the ledger class keeps, and each of its
    operations on batch executions as a function of that state. */
module KvLedger {
  import opened FreeRanges
  import opened BytePools
  import opened Totals
  import opened PageMath

  type PageId = nat
  type CheckpointId = nat
  type ExecutionId = nat

  // Record sizes charged to the metadata index, and the alignment of every pool request.
  const PAGE_ID_BYTES: nat := 8
  const PAGE_INFO_BYTES: nat := 56
  const CHECKPOINT_INFO_BYTES: nat := 128
  const EXECUTION_INFO_BYTES: nat := 184
  const ALIGNMENT: nat := 256

  datatype Config = Config(
    gpuBytes: nat, indexBytes: nat, pageTokens: nat, windowTokens: nat, maxContext: nat,
    pageBytes: nat, ringBytes: nat, localBytesPerToken: nat, hiddenBytes: nat, tableBytes: nat)
  {
    predicate Valid() {
      && gpuBytes > 0 && indexBytes > 0
      && 0 < pageTokens <= maxContext && 0 < windowTokens <= maxContext
      && pageBytes > 0 && ringBytes > 0 && localBytesPerToken > 0 && hiddenBytes > 0
      && ringBytes == windowTokens * localBytesPerToken
      && tableBytes > 0 && tableBytes >= PageCount(maxContext, pageTokens) * PAGE_ID_BYTES
      // Capacity bound of this model: rounding an offset up never overflows.
      && gpuBytes + ALIGNMENT - 1 <= SIZE_MAX
    }

    function PageCapacity(): nat
      requires pageTokens > 0
    {
      PageCount(maxContext, pageTokens)
    }

    function ExecutionBytes(): nat
      requires pageTokens > 0
    {
      EXECUTION_INFO_BYTES + PageCapacity() * PAGE_ID_BYTES
    }

    function SnapshotTokens(processed: nat): nat {
      if processed < windowTokens then processed else windowTokens
    }

    function SnapshotBytes(processed: nat): nat {
      SnapshotTokens(processed) * localBytesPerToken
    }
  }

  type ValidConfig = c: Config | c.Valid()
    witness Config(8, 1, 1, 1, 1, 1, 1, 1, 1, 8)

  function CheckpointBytes(pageCount: nat): nat {
    CHECKPOINT_INFO_BYTES + pageCount * PAGE_ID_BYTES
  }

  datatype Page = Page(storage: Allocation, firstToken: nat, validTokens: nat, references: nat)
  datatype Capture = NoCapture | Capture(snapshot: Allocation, hidden: Allocation)
  datatype Checkpoint = Checkpoint(
    processed: nat, localStart: nat, localTokens: nat, pages: seq<PageId>,
    snapshot: Allocation, hidden: Allocation, borrowers: nat, pins: nat)
  datatype Execution = Execution(
    processed: nat, limit: nat, pages: seq<PageId>, ring: Allocation, table: Allocation,
    source: CheckpointId, capture: Capture)

  /** Identifiers start at one; zero stands for "no checkpoint". */
  datatype Ledger = Ledger(
    config: ValidConfig, pool: Pool, indexUsed: nat,
    nextPage: PageId, nextCheckpoint: CheckpointId, nextExecution: ExecutionId,
    pages: map<PageId, Page>, checkpoints: map<CheckpointId, Checkpoint>,
    executions: map<ExecutionId, Execution>, copies: nat)

  function Initial(config: ValidConfig): Ledger {
    Ledger(config, Fresh(config.gpuBytes, Gpu), 0, 1, 1, 1, map[], map[], map[], 0)
  }

  function Less(x: nat, y: nat): nat { if y <= x then x - y else 0 }

  // ------------------------------------------------------------ reservations

  /** A borrowed partial tail needs one more page on the next write. */
  predicate TailCopy(s: Ledger, e: Execution) {
    && e.processed < e.limit
    && InPage(e.processed, s.config.pageTokens) != 0
    && e.pages != []
    && e.pages[|e.pages| - 1] in s.pages
    && s.pages[e.pages[|e.pages| - 1]].references > 1
  }

  /** Pages that execution `e` may still allocate before it reaches its limit. */
  function ReservedOf(s: Ledger, e: Execution): nat {
    Less(PageCount(e.limit, s.config.pageTokens), |e.pages|) + if TailCopy(s, e) then 1 else 0
  }

  ghost function Reservation(s: Ledger): Execution -> nat { e => ReservedOf(s, e) }

  ghost function Reserved(s: Ledger): nat { Sum(s.executions, Reservation(s)) }

  // ------------------------------------------------------------------- pages

  function CreatePage(s: Ledger, firstToken: nat): (r: Result<(Ledger, PageId)>) {
    if s.indexUsed + PAGE_INFO_BYTES > s.config.indexBytes then Exhausted
    else match Attempted(s.pool, s.config.pageBytes, ALIGNMENT)
      case Granted(pool, storage) =>
        Made((s.(pool := pool, indexUsed := s.indexUsed + PAGE_INFO_BYTES, nextPage := s.nextPage + 1,
                 pages := s.pages[s.nextPage := Page(storage, firstToken, 0, 1)]), s.nextPage))
      case _ => Exhausted
  }

  datatype Result<T> = Made(value: T) | Exhausted

  function Retained(pages: map<PageId, Page>, ids: seq<PageId>): map<PageId, Page> {
    map p | p in pages :: pages[p].(references := pages[p].references + multiset(ids)[p])
  }

  function ReleasePage(s: Ledger, p: PageId): Ledger {
    if p !in s.pages || s.pages[p].references == 0 then s
    else if s.pages[p].references > 1 then
      s.(pages := s.pages[p := s.pages[p].(references := s.pages[p].references - 1)])
    else
      s.(pages := s.pages - {p}, pool := Released(s.pool, s.pages[p].storage),
         indexUsed := Less(s.indexUsed, PAGE_INFO_BYTES))
  }

  function ReleaseAll(s: Ledger, ids: seq<PageId>): Ledger
    decreases |ids|
  {
    if ids == [] then s else ReleaseAll(ReleasePage(s, ids[0]), ids[1..])
  }

  function FreeBoth(s: Ledger, x: Allocation, y: Allocation): Ledger {
    s.(pool := Released(Released(s.pool, x), y))
  }

  // ---------------------------------------------------------------- eviction

  datatype Cause = GpuPressure | IndexPressure

  /** The policy callback: picks one of the eligible checkpoints, or anything to refuse. */
  type Selector = (CheckpointId, set<CheckpointId>, Cause) -> CheckpointId

  function EraseCheckpoint(s: Ledger, c: CheckpointId): Ledger
    requires c in s.checkpoints
  {
    var value := s.checkpoints[c];
    var freed := FreeBoth(ReleaseAll(s, value.pages), value.snapshot, value.hidden);
    freed.(indexUsed := Less(freed.indexUsed, CheckpointBytes(|value.pages|)),
           checkpoints := s.checkpoints - {c})
  }

  predicate Idle(c: Checkpoint) { c.borrowers == 0 && c.pins == 0 }

  function Eligible(s: Ledger, protect: CheckpointId): set<CheckpointId> {
    set c | c in s.checkpoints && Idle(s.checkpoints[c]) && c != protect
  }

  function EvictIdle(s: Ledger, protect: CheckpointId, cause: Cause, select: Selector): Result<Ledger> {
    var eligible := Eligible(s, protect);
    if eligible == {} then Exhausted
    else
      var victim := select(protect, eligible, cause);
      if victim !in eligible then Exhausted else Made(EraseCheckpoint(s, victim))
  }

  // --------------------------------------------------------------- admission

  datatype Outcome<T> = Done(value: T) | Refused(cause: Cause) | Rejected

  /** The pages an admission must find room for: a fixed number, counted before any eviction,
      or what a fork of `source` needs, counted again after each eviction. */
  datatype Demand = NewPages(pages: nat) | ForkOf(source: ExecutionId, limit: nat)

  function Growth(limit: nat, held: nat, resumed: nat, pt: nat): nat
    requires pt > 0
  {
    Less(PageCount(limit, pt), held) + if resumed < limit && InPage(resumed, pt) != 0 then 1 else 0
  }

  /** A fork makes the private partial tail of its source a shared one. */
  predicate SourceTailCopy(s: Ledger, e: Execution) {
    && InPage(e.processed, s.config.pageTokens) != 0
    && e.processed < e.limit
    && e.pages != []
    && e.pages[|e.pages| - 1] in s.pages
    && s.pages[e.pages[|e.pages| - 1]].references == 1
  }

  ghost function Promised(s: Ledger, demand: Demand): nat {
    match demand
    case NewPages(n) => n
    case ForkOf(source, limit) =>
      if source !in s.executions then Reserved(s)
      else
        var e := s.executions[source];
        Reserved(s) + Growth(limit, |e.pages|, e.processed, s.config.pageTokens)
        + if SourceTailCopy(s, e) then 1 else 0
  }

  function Plan(config: ValidConfig, n: nat): seq<nat> {
    [config.ringBytes, config.tableBytes] + Repeat(config.pageBytes, n)
  }

  datatype Verdict = Room | Lacks(cause: Cause)

  ghost function Pressure(s: Ledger, demand: Demand): Verdict {
    var n := Promised(s, demand);
    if s.indexUsed + s.config.ExecutionBytes() + n * PAGE_INFO_BYTES > s.config.indexBytes
    then Lacks(IndexPressure)
    else if !TakeAll(s.pool.free, Plan(s.config, n), ALIGNMENT).AllFit? then Lacks(GpuPressure)
    else Room
  }

  /** Evicts idle checkpoints until the demand fits. Evictions made before giving up stay. */
  ghost function MakeRoom(s: Ledger, demand: Demand, protect: CheckpointId, select: Selector): (Ledger, Verdict)
    decreases |s.checkpoints|
  {
    var pressure := Pressure(s, demand);
    if pressure.Room? then (s, pressure)
    else match EvictIdle(s, protect, pressure.cause, select)
      case Exhausted => (s, pressure)
      case Made(next) =>
        EvictShrinks(s, protect, pressure.cause, select);
        MakeRoom(next, demand, protect, select)
  }

  lemma EvictShrinks(s: Ledger, protect: CheckpointId, cause: Cause, select: Selector)
    requires EvictIdle(s, protect, cause, select).Made?
    ensures |EvictIdle(s, protect, cause, select).value.checkpoints| < |s.checkpoints|
  {
    var victim := select(protect, Eligible(s, protect), cause);
    assert (s.checkpoints - {victim}).Keys == s.checkpoints.Keys - {victim};
  }

  /** Creates the execution record: metadata charge, private buffers, shared pages. */
  function Start(s: Ledger, limit: nat, processed: nat, pages: seq<PageId>, source: CheckpointId)
    : Result<(Ledger, ExecutionId)>
  {
    if s.indexUsed + s.config.ExecutionBytes() > s.config.indexBytes then Exhausted
    else match Attempted(s.pool, s.config.ringBytes, ALIGNMENT)
      case Granted(pool1, ring) => (
        match Attempted(pool1, s.config.tableBytes, ALIGNMENT)
        case Granted(pool2, table) =>
          var id := s.nextExecution;
          var borrowed := if source in s.checkpoints
            then s.checkpoints[source := s.checkpoints[source].(borrowers := s.checkpoints[source].borrowers + 1)]
            else s.checkpoints;
          Made((s.(pool := pool2, indexUsed := s.indexUsed + s.config.ExecutionBytes(),
                   nextExecution := id + 1, pages := Retained(s.pages, pages), checkpoints := borrowed,
                   executions := s.executions[id :=
                       Execution(processed, limit, pages, ring, table, source, NoCapture)]),
                id))
        case _ => Exhausted)
      case _ => Exhausted
  }

  /** Whether a request could fit with nothing else admitted; `Rejected` for a bad argument. */
  function BatchFits(s: Ledger, source: CheckpointId, limit: nat): Outcome<bool> {
    var config := s.config;
    if limit == 0 || limit > config.maxContext then Rejected
    else if source != 0 && source !in s.checkpoints then Rejected
    else
      var resumed := if source == 0 then 0 else s.checkpoints[source].processed;
      if limit < resumed then Rejected
      else
        var held := if source == 0 then 0 else |s.checkpoints[source].pages|;
        var tail := if resumed < limit && InPage(resumed, config.pageTokens) != 0 then 1 else 0;
        var total := PageCount(limit, config.pageTokens);
        var pages := Growth(limit, held, resumed, config.pageTokens);
        var state := if source == 0 then 0
          else s.checkpoints[source].snapshot.bytes + s.checkpoints[source].hidden.bytes;
        var sourceMetadata := if source == 0 then 0 else CheckpointBytes(held) + held * PAGE_INFO_BYTES;
        Done(
          && config.ringBytes + config.tableBytes + (total + tail) * config.pageBytes + state <= config.gpuBytes
          && sourceMetadata + config.ExecutionBytes() + pages * PAGE_INFO_BYTES <= config.indexBytes
          && (source == 0 ==>
                TakeAll(Fresh(config.gpuBytes, Gpu).free, Plan(config, pages), ALIGNMENT).AllFit?))
  }

  /** The length and the page table a batch admission starts from. */
  function Resumed(s: Ledger, source: CheckpointId): nat {
    if source != 0 && source in s.checkpoints then s.checkpoints[source].processed else 0
  }

  function Inherited(s: Ledger, source: CheckpointId): seq<PageId> {
    if source != 0 && source in s.checkpoints then s.checkpoints[source].pages else []
  }

  ghost function BeginDemand(s: Ledger, source: CheckpointId, limit: nat): Demand {
    NewPages(Reserved(s) + Growth(limit, |Inherited(s, source)|, Resumed(s, source), s.config.pageTokens))
  }

  ghost function BeginBatch(s: Ledger, source: CheckpointId, limit: nat, select: Selector): (Ledger,
      Outcome<ExecutionId>) {
    if BatchFits(s, source, limit) != Done(true) then (s, Rejected)
    else
      var (room, verdict) := MakeRoom(s, BeginDemand(s, source, limit), source, select);
      if verdict.Lacks? then (room, Refused(verdict.cause))
      else match Start(room, limit, Resumed(s, source), Inherited(s, source), source)
        case Made((next, id)) => (next, Done(id))
        case Exhausted => (room, Rejected)
  }

  predicate LimitOk(s: Ledger, e: ExecutionId, limit: nat) {
    e in s.executions && 0 < limit <= s.config.maxContext && s.executions[e].processed <= limit
  }

  ghost function ForkBatch(s: Ledger, source: ExecutionId, limit: nat, select: Selector): (Ledger,
      Outcome<ExecutionId>) {
    if !LimitOk(s, source, limit) then (s, Rejected)
    else
      var (room, verdict) := MakeRoom(s, ForkOf(source, limit), 0, select);
      if verdict.Lacks? then (room, Refused(verdict.cause))
      else if source !in room.executions then (room, Rejected)
      else
        match Start(room, limit, room.executions[source].processed, room.executions[source].pages, 0)
        case Made((next, id)) => (next, Done(id))
        case Exhausted => (room, Rejected)
  }

  ghost function ResizeBatch(s: Ledger, e: ExecutionId, limit: nat): (Ledger, Outcome<()>) {
    if !LimitOk(s, e, limit) then (s, Rejected)
    else
      var resized := s.(executions := s.executions[e := s.executions[e].(limit := limit)]);
      if limit <= s.executions[e].limit then (resized, Done(()))
      else
        var n := Reserved(resized);
        if s.indexUsed + n * PAGE_INFO_BYTES > s.config.indexBytes then (s, Refused(IndexPressure))
        else if TakeAll(s.pool.free, Repeat(s.config.pageBytes, n), ALIGNMENT).AllFit? then (resized, Done(()))
        else (s, Refused(GpuPressure))
  }

  // ------------------------------------------------------------------ writes

  datatype WritePlan = WritePlan(copies: seq<(PageId, PageId)>, newPages: seq<PageId>)

  predicate WriteOk(s: Ledger, e: ExecutionId, first: nat, count: nat) {
    && count > 0 && e in s.executions
    && s.executions[e].capture.NoCapture?
    && first == s.executions[e].processed
    && first + count <= s.config.maxContext
    && first + count <= s.executions[e].limit
  }

  /** Appends a fresh page to the page table of execution `e`. */
  function GrowPage(s: Ledger, e: ExecutionId, firstToken: nat): (r: Result<(Ledger, PageId)>)
    requires e in s.executions
    ensures r.Made? ==> r.value.0.executions.Keys == s.executions.Keys
  {
    match CreatePage(s, firstToken)
    case Exhausted => Exhausted
    case Made((next, p)) =>
      var grown := s.executions[e].(pages := s.executions[e].pages + [p]);
      Made((next.(executions := s.executions[e := grown]), p))
  }

  /** Replaces the shared page at `i` by a private copy. */
  function CopyPage(s: Ledger, e: ExecutionId, i: nat): (r: Result<(Ledger, PageId)>)
    requires e in s.executions && i < |s.executions[e].pages| && s.executions[e].pages[i] in s.pages
    ensures r.Made? ==> r.value.0.executions.Keys == s.executions.Keys
  {
    var shared := s.executions[e].pages[i];
    match CreatePage(s, s.pages[shared].firstToken)
    case Exhausted => Exhausted
    case Made((next, p)) =>
      var filled := next.pages[p := next.pages[p].(validTokens := s.pages[shared].validTokens)];
      var replaced := s.executions[e].(pages := s.executions[e].pages[i := p]);
      var swapped := next.(pages := filled, executions := s.executions[e := replaced], copies := s.copies + 1);
      Made((ReleasePage(swapped, shared), p))
  }

  /** The page loop of a write: pages `i..=last` exist and are private afterwards. */
  function Touch(s: Ledger, e: ExecutionId, i: nat, last: nat, plan: WritePlan): (r: Result<(Ledger, WritePlan)>)
    requires e in s.executions
    ensures r.Made? ==> r.value.0.executions.Keys == s.executions.Keys
    decreases last + 1 - i
  {
    if i > last then Made((s, plan))
    else if i >= |s.executions[e].pages| then
      match GrowPage(s, e, FirstToken(i, s.config.pageTokens))
      case Exhausted => Exhausted
      case Made((next, p)) => Touch(next, e, i + 1, last, plan.(newPages := plan.newPages + [p]))
    else
      var shared := s.executions[e].pages[i];
      if shared !in s.pages then Exhausted
      else if s.pages[shared].references > 1 then
        match CopyPage(s, e, i)
        case Exhausted => Exhausted
        case Made((next, p)) =>
          Touch(next, e, i + 1, last, plan.(copies := plan.copies + [(shared, p)]))
      else Touch(s, e, i + 1, last, plan)
  }

  /** Records the write: the execution's length and the filled part of each touched page. */
  function Settle(s: Ledger, e: ExecutionId, firstPage: nat, end: nat): Ledger
    requires e in s.executions
  {
    var x := s.executions[e];
    var touched := if firstPage <= |x.pages| then x.pages[firstPage..] else [];
    s.(executions := s.executions[e := x.(processed := end)],
       pages := map p | p in s.pages ::
         if p in touched then Refilled(s.pages[p], end, s.config.pageTokens) else s.pages[p])
  }

  function Refilled(page: Page, end: nat, pt: nat): Page {
    var room := Less(end, page.firstToken);
    var valid := if room < pt then room else pt;
    page.(validTokens := if valid > page.validTokens then valid else page.validTokens)
  }

  datatype WriteResult = Written(plan: WritePlan) | OutOfBudget | BadWrite

  function PrepareWrite(s: Ledger, e: ExecutionId, first: nat, count: nat): (Ledger, WriteResult) {
    if !WriteOk(s, e, first, count) then (s, BadWrite)
    else
      var pt := s.config.pageTokens;
      var firstPage, last := PageOf(first, pt), PageOf(first + count - 1, pt);
      if last >= s.config.PageCapacity() then (s, OutOfBudget)
      else match Touch(s, e, firstPage, last, WritePlan([], []))
        case Exhausted => (s, OutOfBudget)
        case Made((next, plan)) =>
          (Settle(next, e, firstPage, first + count), Written(plan))
  }

  // ------------------------------------------------------------- checkpoints

  /** Retaining a private partial tail introduces one more future page. */
  predicate NewTailCopy(s: Ledger, e: Execution) {
    SourceTailCopy(s, e)
  }

  ghost function BeginCapture(s: Ledger, e: ExecutionId): (Ledger, Outcome<Capture>) {
    if e !in s.executions then (s, Rejected)
    else
      var x := s.executions[e];
      if x.processed == 0 || x.capture.Capture? then (s, Rejected)
      else
        var local := s.config.SnapshotBytes(x.processed);
        var metadata := CheckpointBytes(|x.pages|);
        var n := Reserved(s) + if NewTailCopy(s, x) then 1 else 0;
        if s.indexUsed + metadata + n * PAGE_INFO_BYTES > s.config.indexBytes then (s, Refused(IndexPressure))
        else if !TakeAll(s.pool.free, [local, s.config.hiddenBytes] + Repeat(s.config.pageBytes, n), ALIGNMENT).AllFit?
        then (s, Refused(GpuPressure))
        else match StoreCapture(s, e)
          case Made((next, capture)) => (next, Done(capture))
          case Exhausted => (s, Rejected)
  }

  function StoreCapture(s: Ledger, e: ExecutionId): Result<(Ledger, Capture)>
    requires e in s.executions
  {
    var x := s.executions[e];
    match Attempted(s.pool, s.config.SnapshotBytes(x.processed), ALIGNMENT)
    case Granted(pool1, snapshot) => (
      match Attempted(pool1, s.config.hiddenBytes, ALIGNMENT)
      case Granted(pool2, hidden) =>
        var capture := Capture(snapshot, hidden);
        Made((s.(pool := pool2, indexUsed := s.indexUsed + CheckpointBytes(|x.pages|),
                 pages := Retained(s.pages, x.pages),
                 executions := s.executions[e := x.(capture := capture)]), capture))
      case _ => Exhausted)
    case _ => Exhausted
  }

  function AbortCapture(s: Ledger, e: ExecutionId): Ledger
    requires e in s.executions
  {
    var x := s.executions[e];
    if x.capture.NoCapture? then s
    else
      var freed := FreeBoth(ReleaseAll(s, x.pages), x.capture.snapshot, x.capture.hidden);
      freed.(indexUsed := Less(freed.indexUsed, CheckpointBytes(|x.pages|)),
             executions := s.executions[e := x.(capture := NoCapture)])
  }

  /** Publication of a pending capture. While batch executions exist nothing else publishes. */
  function Publish(s: Ledger, e: ExecutionId, snapshot: Allocation, hidden: Allocation): (Ledger,
      Outcome<CheckpointId>) {
    if e !in s.executions then (s, Rejected)
    else
      var x := s.executions[e];
      if x.capture.NoCapture? || x.processed == 0 then (s, Rejected)
      else if snapshot !in s.pool.live || hidden !in s.pool.live ||
        snapshot.bytes != s.config.SnapshotBytes(x.processed) || hidden.bytes != s.config.hiddenBytes ||
        snapshot.id != x.capture.snapshot.id || hidden.id != x.capture.hidden.id then (s, Rejected)
      else
        var tokens := s.config.SnapshotTokens(x.processed);
        var record := Checkpoint(x.processed, Less(x.processed, tokens), tokens, x.pages, snapshot, hidden, 0, 0);
        (s.(nextCheckpoint := s.nextCheckpoint + 1,
            checkpoints := s.checkpoints[s.nextCheckpoint := record],
            executions := s.executions[e := x.(capture := NoCapture)]), Done(s.nextCheckpoint))
  }

  function ReleaseExecution(s: Ledger, e: ExecutionId): (Ledger, Outcome<()>) {
    if e !in s.executions then (s, Rejected)
    else
      var aborted := AbortCapture(s, e);
      var x := s.executions[e];
      var freed := FreeBoth(ReleaseAll(aborted, x.pages), x.ring, x.table);
      var returned := if x.source in s.checkpoints
        then s.checkpoints[x.source :=
            s.checkpoints[x.source].(borrowers := Less(s.checkpoints[x.source].borrowers, 1))]
        else s.checkpoints;
      (freed.(indexUsed := Less(freed.indexUsed, s.config.ExecutionBytes()),
              checkpoints := returned, executions := s.executions - {e}), Done(()))
  }

  function ReleaseCheckpoint(s: Ledger, c: CheckpointId): (Ledger, Outcome<()>) {
    if c !in s.checkpoints || !Idle(s.checkpoints[c]) then (s, Rejected)
    else (EraseCheckpoint(s, c), Done(()))
  }

  function Pin(s: Ledger, c: CheckpointId): (Ledger, Outcome<()>) {
    if c !in s.checkpoints then (s, Rejected)
    else (s.(checkpoints := s.checkpoints[c := s.checkpoints[c].(pins := s.checkpoints[c].pins + 1)]), Done(()))
  }

  function Unpin(s: Ledger, c: CheckpointId): (Ledger, Outcome<()>) {
    if c !in s.checkpoints || s.checkpoints[c].pins == 0 then (s, Rejected)
    else (s.(checkpoints := s.checkpoints[c := s.checkpoints[c].(pins := s.checkpoints[c].pins - 1)]), Done(()))
  }

  // ------------------------------------------------------ caller allocations

  /** Allocations on behalf of the caller are refused while batch executions exist. */
  function AllocateOutside(s: Ledger, bytes: nat, alignment: nat): (Ledger, Outcome<Allocation>) {
    if s.executions != map[] then (s, Refused(GpuPressure))
    else match Attempted(s.pool, bytes, alignment)
      case Granted(pool, x) => (s.(pool := pool), Done(x))
      case Misused => (s, Rejected)
      case _ => (s, Refused(GpuPressure))
  }

  function ReleaseOutside(s: Ledger, x: Allocation): Ledger {
    s.(pool := Released(s.pool, x))
  }
}
