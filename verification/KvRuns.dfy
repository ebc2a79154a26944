/** Whole runs. The ledger together with page memory refines a machine in which every
    execution, pending capture and checkpoint simply owns its full history. */
module KvRuns {
  import opened FreeRanges
  import opened BytePools
  import opened Totals
  import opened PageMath
  import opened KvLedger
  import opened KvBooks
  import opened KvRecords
  import opened KvInvariant
  import opened KvReclaim
  import opened KvAdmission
  import opened KvWrites
  import opened KvContents

  // -------------------------------------------------------- the abstract machine

  type History = seq<Row>

  datatype Histories = Histories(
    executions: map<ExecutionId, History>, captures: map<ExecutionId, History>,
    checkpoints: map<CheckpointId, History>)

  datatype Origin = Nothing | OfCheckpoint(checkpoint: CheckpointId) | OfExecution(execution: ExecutionId)

  /** What a caller learns from an operation. */
  datatype Event =
    | Quiet
    | Started(id: ExecutionId, origin: Origin)
    | Wrote(execution: ExecutionId, data: seq<Row>)
    | CaptureBegun(execution: ExecutionId)
    | Published(execution: ExecutionId, checkpoint: CheckpointId)
    | CaptureAborted(execution: ExecutionId)
    | Ended(execution: ExecutionId)

  function Started0(h: Histories, origin: Origin): History {
    match origin
    case Nothing => []
    case OfCheckpoint(c) => if c in h.checkpoints then h.checkpoints[c] else []
    case OfExecution(e) => if e in h.executions then h.executions[e] else []
  }

  /** Private histories after an event; `gone` are the checkpoints that ceased to exist. */
  function After(h: Histories, event: Event, gone: set<CheckpointId>): Histories {
    var kept := h.(checkpoints := h.checkpoints - gone);
    match event
    case Quiet => kept
    case Started(id, origin) => kept.(executions := h.executions[id := Started0(h, origin)])
    case Wrote(e, data) =>
      if e in h.executions then kept.(executions := h.executions[e := h.executions[e] + data]) else kept
    case CaptureBegun(e) =>
      if e in h.executions then kept.(captures := h.captures[e := h.executions[e]]) else kept
    case Published(e, c) =>
      if e in h.captures then kept.(captures := h.captures - {e}, checkpoints := kept.checkpoints[c := h.captures[e]])
      else kept
    case CaptureAborted(e) => kept.(captures := h.captures - {e})
    case Ended(e) => kept.(captures := h.captures - {e}, executions := h.executions - {e})
  }

  // -------------------------------------------------------- the concrete machine

  datatype Op =
    | Begin(checkpoint: CheckpointId, limit: nat, select: Selector)
    | Fork(source: ExecutionId, limit: nat, select: Selector)
    | Resize(execution: ExecutionId, limit: nat)
    | Write(execution: ExecutionId, first: nat, data: seq<Row>)
    | CaptureState(execution: ExecutionId)
    | PublishState(execution: ExecutionId, snapshot: Allocation, hidden: Allocation)
    | Abort(execution: ExecutionId)
    | Release(execution: ExecutionId)
    | Drop(checkpoint: CheckpointId)
    | PinState(checkpoint: CheckpointId)
    | UnpinState(checkpoint: CheckpointId)
    | AllocateBytes(bytes: nat, alignment: nat)
    | FreeBytes(allocation: Allocation)

  datatype World = World(ledger: Ledger, memory: Memory, outside: set<Allocation>)

  ghost function Step(w: World, op: Op): (World, Event) {
    var s := w.ledger;
    match op
    case Begin(c, limit, select) =>
      var (s', r) := BeginBatch(s, c, limit, select);
      (w.(ledger := s'), if r.Done? then Started(r.value, OriginOf(c)) else Quiet)
    case Fork(e, limit, select) =>
      var (s', r) := ForkBatch(s, e, limit, select);
      (w.(ledger := s'), if r.Done? then Started(r.value, OfExecution(e)) else Quiet)
    case Resize(e, limit) => (w.(ledger := ResizeBatch(s, e, limit).0), Quiet)
    case Write(e, first, data) => WriteStep(w, e, first, first + |data|, data)
    case CaptureState(e) =>
      var (s', r) := BeginCapture(s, e);
      (w.(ledger := s'), if r.Done? then CaptureBegun(e) else Quiet)
    case PublishState(e, snapshot, hidden) =>
      var (s', r) := Publish(s, e, snapshot, hidden);
      (w.(ledger := s'), if r.Done? then Published(e, r.value) else Quiet)
    case Abort(e) => if e in s.executions then (w.(ledger := AbortCapture(s, e)), CaptureAborted(e)) else (w, Quiet)
    case Release(e) =>
      (w.(ledger := ReleaseExecution(s, e).0), if e in s.executions then Ended(e) else Quiet)
    case Drop(c) => (w.(ledger := ReleaseCheckpoint(s, c).0), Quiet)
    case PinState(c) => (w.(ledger := Pin(s, c).0), Quiet)
    case UnpinState(c) => (w.(ledger := Unpin(s, c).0), Quiet)
    case AllocateBytes(bytes, alignment) =>
      var (s', r) := AllocateOutside(s, bytes, alignment);
      (World(s', w.memory, if r.Done? then w.outside + {r.value} else w.outside), Quiet)
    case FreeBytes(x) => (World(ReleaseOutside(s, x), w.memory, w.outside - {x}), Quiet)
  }

  ghost function WriteStep(w: World, e: ExecutionId, first: nat, end: nat, data: seq<Row>): (World, Event)
    requires end == first + |data|
  {
    var s := w.ledger;
    var (s', r) := PrepareWrite(s, e, first, |data|);
    if r.Written? && e in s'.executions
    then (World(s', AfterWrite(s, s', e, w.memory, first, end, data, r.plan), w.outside), Wrote(e, data))
    else (w.(ledger := s'), Quiet)
  }

  /** A caller only hands back allocations it was given, or ones the pool refuses. */
  predicate Legal(w: World, op: Op) {
    op.FreeBytes? ==> op.allocation in w.outside || op.allocation !in w.ledger.pool.live
  }

  function Gone(s: Ledger, s': Ledger): set<CheckpointId> { s.checkpoints.Keys - s'.checkpoints.Keys }

  // ------------------------------------------------------------------ refinement

  predicate ExecutionDomain(s: Ledger, h: Histories, k: ExecutionId) {
    && (k in h.executions <==> k in s.executions)
    && (k in h.captures <==> k in s.executions && s.executions[k].capture.Capture?)
    && (k in h.captures ==> h.captures[k] == h.executions[k])
  }

  predicate CheckpointDomain(s: Ledger, h: Histories, c: CheckpointId) {
    c in h.checkpoints <==> c in s.checkpoints
  }

  ghost predicate Domains(s: Ledger, h: Histories) {
    (forall k :: ExecutionDomain(s, h, k)) && (forall c :: CheckpointDomain(s, h, c))
  }

  ghost predicate ExecutionReads(s: Ledger, s': Ledger, memory: Memory, h: Histories, k: ExecutionId) {
    k in s'.executions && k in h.executions ==>
      && |h.executions[k]| == s'.executions[k].processed
      && Reads(s, memory, s'.executions[k].pages, h.executions[k])
  }

  ghost predicate CheckpointReads(s: Ledger, s': Ledger, memory: Memory, h: Histories, c: CheckpointId) {
    c in s'.checkpoints && c in h.checkpoints ==>
      && |h.checkpoints[c]| == s'.checkpoints[c].processed
      && Reads(s, memory, s'.checkpoints[c].pages, h.checkpoints[c])
  }

  /** The records of `s'` read, through the pages of `s`, as `h`. */
  ghost predicate Carried(s: Ledger, s': Ledger, memory: Memory, h: Histories) {
    && (forall k :: ExecutionReads(s, s', memory, h, k))
    && (forall c :: CheckpointReads(s, s', memory, h, c))
  }

  ghost predicate Refines(s: Ledger, memory: Memory, h: Histories) {
    Domains(s, h) && Carried(s, s, memory, h)
  }

  predicate SameStorage(s: Ledger, s': Ledger, p: PageId) {
    p in s.pages && p in s'.pages ==> s'.pages[p].storage == s.pages[p].storage
  }

  lemma PagesCarried(s: Ledger, s': Ledger, memory: Memory, pages: seq<PageId>, history: History)
    requires Reads(s, memory, pages, history) && s'.config == s.config
    requires forall i: nat :: i < |pages| ==> pages[i] in s'.pages
    requires forall p :: SameStorage(s, s', p)
    ensures Reads(s', memory, pages, history)
  {
    forall i: nat ensures StorageStays(s, s', pages, i) {
      if i < |pages| { assert SameStorage(s, s', pages[i]); }
    }
    forall i: nat, k: nat ensures MemorySame(s, memory, memory, pages, i, k) {}
    ReadsStay(s, s', memory, memory, pages, history);
  }

  lemma CarriedRefines(s: Ledger, s': Ledger, memory: Memory, h: Histories, outside: set<Allocation>)
    requires Carried(s, s', memory, h) && Domains(s', h) && s'.config == s.config
    requires Books(s', multiset{}, outside, 0) && (forall p :: SameStorage(s, s', p))
    ensures Refines(s', memory, h)
  {
    forall k ensures ExecutionReads(s', s', memory, h, k) {
      assert ExecutionReads(s, s', memory, h, k);
      if k in s'.executions && k in h.executions {
        forall i: nat | i < |s'.executions[k].pages| ensures s'.executions[k].pages[i] in s'.pages {
          HeldPresent(s', k, i, outside, 0);
        }
        PagesCarried(s, s', memory, s'.executions[k].pages, h.executions[k]);
      }
    }
    forall c ensures CheckpointReads(s', s', memory, h, c) {
      assert CheckpointReads(s, s', memory, h, c);
      if c in s'.checkpoints && c in h.checkpoints {
        forall i: nat | i < |s'.checkpoints[c].pages| ensures s'.checkpoints[c].pages[i] in s'.pages {
          KeptPresent(s', c, i, outside, 0);
        }
        PagesCarried(s, s', memory, s'.checkpoints[c].pages, h.checkpoints[c]);
      }
    }
  }

  lemma ShrinksStorage(s: Ledger, s': Ledger)
    requires Shrinks(s, s')
    ensures forall p :: SameStorage(s, s', p)
  {
    forall p ensures SameStorage(s, s', p) { assert Kept(s, s', p); }
  }

  predicate ExecutionSame(s: Ledger, s': Ledger, k: ExecutionId) {
    k in s'.executions ==>
      && k in s.executions && s'.executions[k].pages == s.executions[k].pages
      && s'.executions[k].processed == s.executions[k].processed
  }

  predicate CheckpointSame(s: Ledger, s': Ledger, c: CheckpointId) {
    c in s'.checkpoints ==>
      && c in s.checkpoints && s'.checkpoints[c].pages == s.checkpoints[c].pages
      && s'.checkpoints[c].processed == s.checkpoints[c].processed
  }

  predicate HistorySame(h: Histories, h': Histories, k: ExecutionId) {
    k in h'.executions ==> k in h.executions && h'.executions[k] == h.executions[k]
  }

  predicate StateSame(h: Histories, h': Histories, c: CheckpointId) {
    c in h'.checkpoints ==> c in h.checkpoints && h'.checkpoints[c] == h.checkpoints[c]
  }

  /** Steps that add no record and write nothing leave every remaining history as it was. */
  lemma QuietRefines(s: Ledger, s': Ledger, memory: Memory, h: Histories, h': Histories, outside: set<Allocation>)
    requires Refines(s, memory, h) && Domains(s', h') && s'.config == s.config
    requires Books(s', multiset{}, outside, 0) && (forall p :: SameStorage(s, s', p))
    requires forall k :: ExecutionSame(s, s', k)
    requires forall c :: CheckpointSame(s, s', c)
    requires forall k :: HistorySame(h, h', k)
    requires forall c :: StateSame(h, h', c)
    ensures Refines(s', memory, h')
  {
    forall k ensures ExecutionReads(s, s', memory, h', k) {
      assert ExecutionReads(s, s, memory, h, k) && ExecutionSame(s, s', k) && HistorySame(h, h', k);
    }
    forall c ensures CheckpointReads(s, s', memory, h', c) {
      assert CheckpointReads(s, s, memory, h, c) && CheckpointSame(s, s', c) && StateSame(h, h', c);
    }
    CarriedRefines(s, s', memory, h', outside);
  }

  // ------------------------------------------------------------------- admission

  lemma MakeRoomRefines(s: Ledger, t: Ledger, memory: Memory, h: Histories, protect: CheckpointId,
      outside: set<Allocation>)
    requires Refines(s, memory, h) && Books(t, multiset{}, outside, 0) && Shrinks(s, t) && t.executions == s.executions
    requires forall c :: EvictedOnly(s, t, protect, c)
    ensures Refines(t, memory, After(h, Quiet, Gone(s, t)))
  {
    var h' := After(h, Quiet, Gone(s, t));
    ShrinksStorage(s, t);
    forall k ensures ExecutionSame(s, t, k) {}
    forall c ensures CheckpointSame(s, t, c) { assert EvictedOnly(s, t, protect, c); }
    forall k ensures ExecutionDomain(t, h', k) && HistorySame(h, h', k) { assert ExecutionDomain(s, h, k); }
    forall c ensures CheckpointDomain(t, h', c) && StateSame(h, h', c) {
      assert EvictedOnly(s, t, protect, c) && CheckpointDomain(s, h, c);
    }
    QuietRefines(s, t, memory, h, h', outside);
  }

  /** A new execution reads as the history of the table it was given. */
  lemma StartRefines(t: Ledger, limit: nat, processed: nat, pages: seq<PageId>, source: CheckpointId, memory: Memory,
      h: Histories, history: History, outside: set<Allocation>)
    requires Refines(t, memory, h) && Ids(t) && Start(t, limit, processed, pages, source).Made?
    requires Books(Start(t, limit, processed, pages, source).value.0, multiset{}, outside, 0)
    requires Reads(t, memory, pages, history) && |history| == processed
    ensures var (s', id) := Start(t, limit, processed, pages, source).value;
      Refines(s', memory, h.(executions := h.executions[id := history]))
  {
    StartFields(t, limit, processed, pages, source);
    var (s', id) := Start(t, limit, processed, pages, source).value;
    var h' := h.(executions := h.executions[id := history]);
    forall p ensures SameStorage(t, s', p) {}
    forall k ensures ExecutionReads(t, s', memory, h', k) { assert ExecutionReads(t, t, memory, h, k); }
    forall c ensures CheckpointReads(t, s', memory, h', c) { assert CheckpointReads(t, t, memory, h, c); }
    forall k ensures ExecutionDomain(s', h', k) { assert ExecutionDomain(t, h, k); }
    forall c ensures CheckpointDomain(s', h', c) { assert CheckpointDomain(t, h, c); }
    CarriedRefines(t, s', memory, h', outside);
  }

  /** Checkpoints only go if they were idle and not protected. */
  predicate EvictedOnlyIds(s: Ledger, s': Ledger, protect: CheckpointId, c: CheckpointId) {
    && (c in s'.checkpoints ==> c in s.checkpoints)
    && (c in s.checkpoints && c !in s'.checkpoints ==> Idle(s.checkpoints[c]) && c != protect)
  }

  lemma MakeRoomIds(s: Ledger, t: Ledger, protect: CheckpointId)
    requires forall c :: EvictedOnly(s, t, protect, c)
    ensures forall c :: EvictedOnlyIds(s, t, protect, c)
  {
    forall c ensures EvictedOnlyIds(s, t, protect, c) { assert EvictedOnly(s, t, protect, c); }
  }

  /** What `MakeRoom` establishes about the ledger `t` it leaves behind. */
  ghost predicate Roomier(s: Ledger, t: Ledger, protect: CheckpointId, outside: set<Allocation>) {
    && Books(t, multiset{}, outside, 0) && Ids(t) && Shrinks(s, t) && t.executions == s.executions
    && (forall c :: EvictedOnly(s, t, protect, c))
  }

  lemma MakeRoomRoomier(s: Ledger, demand: Demand, protect: CheckpointId, select: Selector, outside: set<Allocation>)
    requires Inv(s, outside, 0)
    ensures Roomier(s, MakeRoom(s, demand, protect, select).0, protect, outside)
  {
    MakeRoomInv(s, demand, protect, select, outside);
  }

  lemma StartIds(t: Ledger, limit: nat, processed: nat, pages: seq<PageId>, source: CheckpointId)
    requires Ids(t) && Start(t, limit, processed, pages, source).Made?
    ensures var (s', id) := Start(t, limit, processed, pages, source).value;
      id == t.nextExecution && id !in t.executions && s'.checkpoints.Keys == t.checkpoints.Keys
  {
    StartFields(t, limit, processed, pages, source);
  }

  /** An admission after some evictions: the new execution starts from its origin's history. */
  lemma AdmitRefines(s: Ledger, t: Ledger, protect: CheckpointId, limit: nat, processed: nat, pages: seq<PageId>,
      source: CheckpointId, origin: Origin, memory: Memory, h: Histories, outside: set<Allocation>)
    requires Refines(s, memory, h) && Roomier(s, t, protect, outside)
    requires Start(t, limit, processed, pages, source).Made?
    requires Books(Start(t, limit, processed, pages, source).value.0, multiset{}, outside, 0)
    requires Reads(s, memory, pages, Started0(h, origin)) && |Started0(h, origin)| == processed
    requires forall i: nat :: i < |pages| ==> pages[i] in t.pages
    ensures var (s', id) := Start(t, limit, processed, pages, source).value;
      && id !in s.executions && s'.checkpoints.Keys == t.checkpoints.Keys
      && Refines(s', memory, After(h, Started(id, origin), Gone(s, t)))
  {
    MakeRoomRefines(s, t, memory, h, protect, outside);
    ShrinksStorage(s, t);
    PagesCarried(s, t, memory, pages, Started0(h, origin));
    StartRefines(t, limit, processed, pages, source, memory, After(h, Quiet, Gone(s, t)), Started0(h, origin), outside);
    StartIds(t, limit, processed, pages, source);
    assert After(h, Started(t.nextExecution, origin), Gone(s, t))
        == After(h, Quiet, Gone(s, t)).(executions := h.executions[t.nextExecution := Started0(h, origin)]);
  }

  lemma SameGone(s: Ledger, t: Ledger, s': Ledger, protect: CheckpointId)
    requires s'.checkpoints.Keys == t.checkpoints.Keys && (forall c :: EvictedOnlyIds(s, t, protect, c))
    ensures Gone(s, s') == Gone(s, t) && (forall c :: EvictedOnlyIds(s, s', protect, c))
  {
    forall c ensures EvictedOnlyIds(s, s', protect, c) { assert EvictedOnlyIds(s, t, protect, c); }
  }

  /** The same, seen from before the evictions. */
  lemma AdmittedRefines(s: Ledger, t: Ledger, protect: CheckpointId, limit: nat, processed: nat, pages: seq<PageId>,
      source: CheckpointId, origin: Origin, memory: Memory, h: Histories, outside: set<Allocation>)
    requires Refines(s, memory, h) && Roomier(s, t, protect, outside)
    requires Start(t, limit, processed, pages, source).Made?
    requires Books(Start(t, limit, processed, pages, source).value.0, multiset{}, outside, 0)
    requires Reads(s, memory, pages, Started0(h, origin)) && |Started0(h, origin)| == processed
    requires forall i: nat :: i < |pages| ==> pages[i] in t.pages
    ensures var (s', id) := Start(t, limit, processed, pages, source).value;
      && (forall c :: EvictedOnlyIds(s, s', protect, c)) && id !in s.executions
      && Refines(s', memory, After(h, Started(id, origin), Gone(s, s')))
  {
    AdmitRefines(s, t, protect, limit, processed, pages, source, origin, memory, h, outside);
    MakeRoomIds(s, t, protect);
    SameGone(s, t, Start(t, limit, processed, pages, source).value.0, protect);
  }

  function OriginOf(source: CheckpointId): Origin { if source == 0 then Nothing else OfCheckpoint(source) }

  /** The table a batch admission starts from, and the history it stands for. */
  lemma OriginReads(s: Ledger, t: Ledger, source: CheckpointId, pages: seq<PageId>, processed: nat, memory: Memory,
      h: Histories, outside: set<Allocation>)
    requires Refines(s, memory, h) && Roomier(s, t, source, outside)
    requires source != 0 ==> source in s.checkpoints && pages == s.checkpoints[source].pages
    requires source != 0 ==> processed == s.checkpoints[source].processed
    requires source == 0 ==> pages == [] && processed == 0
    ensures Reads(s, memory, pages, Started0(h, OriginOf(source))) && |Started0(h, OriginOf(source))| == processed
    ensures forall i: nat :: i < |pages| ==> pages[i] in t.pages
  {
    if source == 0 {
      forall i: nat, k: nat ensures RowAt(s, memory, [], [], i, k) {}
    } else {
      assert CheckpointReads(s, s, memory, h, source) && CheckpointDomain(s, h, source)
          && EvictedOnly(s, t, source, source);
      forall i: nat | i < |pages| ensures pages[i] in t.pages { KeptPresent(t, source, i, outside, 0); }
    }
  }

  lemma BeginRefines(s: Ledger, source: CheckpointId, limit: nat, select: Selector, memory: Memory, h: Histories,
      outside: set<Allocation>)
    requires Inv(s, outside, 0) && Refines(s, memory, h)
    ensures var (s', r) := BeginBatch(s, source, limit, select);
      && (forall c :: EvictedOnlyIds(s, s', source, c))
      && (r.Done? ==> r.value !in s.executions && (source == 0 || source in s.checkpoints))
      && Refines(s', memory, After(h, if r.Done? then Started(r.value, OriginOf(source)) else Quiet, Gone(s, s')))
  {
    BeginBatchInv(s, source, limit, select, outside);
    if BatchFits(s, source, limit) == Done(true) {
      MakeRoomRoomier(s, BeginDemand(s, source, limit), source, select, outside);
      BeginRefinesFits(s, source, limit, select, memory, h, outside);
    } else {
      QuietSame(s, source, h);
    }
  }

  lemma QuietSame(s: Ledger, protect: CheckpointId, h: Histories)
    ensures Gone(s, s) == {} && After(h, Quiet, {}) == h
    ensures forall c :: EvictedOnlyIds(s, s, protect, c)
  {
    forall c ensures EvictedOnlyIds(s, s, protect, c) {}
  }

  lemma BeginRefinesFits(s: Ledger, source: CheckpointId, limit: nat, select: Selector, memory: Memory, h: Histories,
      outside: set<Allocation>)
    requires Refines(s, memory, h) && BatchFits(s, source, limit) == Done(true)
    requires Roomier(s, MakeRoom(s, BeginDemand(s, source, limit), source, select).0, source, outside)
    requires Books(BeginBatch(s, source, limit, select).0, multiset{}, outside, 0)
    ensures var (s', r) := BeginBatch(s, source, limit, select);
      && (forall c :: EvictedOnlyIds(s, s', source, c))
      && (r.Done? ==> r.value !in s.executions && (source == 0 || source in s.checkpoints))
      && Refines(s', memory, After(h, if r.Done? then Started(r.value, OriginOf(source)) else Quiet, Gone(s, s')))
  {
    BeginFields(s, source, limit, select);
    var (t, verdict) := MakeRoom(s, BeginDemand(s, source, limit), source, select);
    var resumed, held := Resumed(s, source), Inherited(s, source);
    if verdict.Room? && Start(t, limit, resumed, held, source).Made? {
      OriginReads(s, t, source, held, resumed, memory, h, outside);
      AdmittedRefines(s, t, source, limit, resumed, held, source, OriginOf(source), memory, h, outside);
    } else {
      MakeRoomIds(s, t, source);
      MakeRoomRefines(s, t, memory, h, source, outside);
    }
  }

  lemma ForkRefines(s: Ledger, source: ExecutionId, limit: nat, select: Selector, memory: Memory, h: Histories,
      outside: set<Allocation>)
    requires Inv(s, outside, 0) && Refines(s, memory, h)
    ensures var (s', r) := ForkBatch(s, source, limit, select);
      && (forall c :: EvictedOnlyIds(s, s', 0, c))
      && (r.Done? ==> r.value !in s.executions && source in s.executions)
      && Refines(s', memory, After(h, if r.Done? then Started(r.value, OfExecution(source)) else Quiet, Gone(s, s')))
  {
    ForkBatchInv(s, source, limit, select, outside);
    if LimitOk(s, source, limit) {
      MakeRoomRoomier(s, ForkOf(source, limit), 0, select, outside);
      ForkRefinesFits(s, source, limit, select, memory, h, outside);
    } else {
      QuietSame(s, 0, h);
    }
  }

  lemma SourceReads(s: Ledger, t: Ledger, source: ExecutionId, memory: Memory, h: Histories, outside: set<Allocation>)
    requires Refines(s, memory, h) && Roomier(s, t, 0, outside) && source in s.executions
    ensures var x, history := s.executions[source], Started0(h, OfExecution(source));
      && Reads(s, memory, x.pages, history) && |history| == x.processed
      && (forall i: nat :: i < |x.pages| ==> x.pages[i] in t.pages)
  {
    var x := s.executions[source];
    assert ExecutionReads(s, s, memory, h, source) && ExecutionDomain(s, h, source);
    forall i: nat | i < |x.pages| ensures x.pages[i] in t.pages { HeldPresent(t, source, i, outside, 0); }
  }

  lemma ForkRefinesFits(s: Ledger, source: ExecutionId, limit: nat, select: Selector, memory: Memory, h: Histories,
      outside: set<Allocation>)
    requires Refines(s, memory, h) && LimitOk(s, source, limit)
    requires Roomier(s, MakeRoom(s, ForkOf(source, limit), 0, select).0, 0, outside)
    requires Books(ForkBatch(s, source, limit, select).0, multiset{}, outside, 0)
    ensures var (s', r) := ForkBatch(s, source, limit, select);
      && (forall c :: EvictedOnlyIds(s, s', 0, c))
      && (r.Done? ==> r.value !in s.executions && source in s.executions)
      && Refines(s', memory, After(h, if r.Done? then Started(r.value, OfExecution(source)) else Quiet, Gone(s, s')))
  {
    ForkFields(s, source, limit, select);
    var (t, verdict) := MakeRoom(s, ForkOf(source, limit), 0, select);
    var x := s.executions[source];
    if verdict.Room? && Start(t, limit, x.processed, x.pages, 0).Made? {
      SourceReads(s, t, source, memory, h, outside);
      AdmittedRefines(s, t, 0, limit, x.processed, x.pages, 0, OfExecution(source), memory, h, outside);
    } else {
      MakeRoomIds(s, t, 0);
      MakeRoomRefines(s, t, memory, h, 0, outside);
    }
  }

  /** A step keeps the invariant and acts on the private histories as its event says. */
  ghost predicate Sound(s: Ledger, s': Ledger, memory: Memory, h: Histories, event: Event, outside: set<Allocation>) {
    Inv(s', outside, 0) && Refines(s', memory, After(h, event, Gone(s, s')))
  }

  // ---------------------------------------------------------------------- writes

  lemma WriteRefines(w: World, e: ExecutionId, first: nat, end: nat, data: seq<Row>, h: Histories)
    requires Inv(w.ledger, w.outside, 0) && Refines(w.ledger, w.memory, h) && end == first + |data|
    ensures var (w', event) := WriteStep(w, e, first, end, data);
      && (if WriteOk(w.ledger, e, first, |data|) then event == Wrote(e, data) else event.Quiet? && w' == w)
      && Sound(w.ledger, w'.ledger, w'.memory, h, event, w'.outside)
  {
    var s := w.ledger;
    var (s', r) := PrepareWrite(s, e, first, |data|);
    PrepareWriteInv(s, e, first, |data|, w.outside);
    if WriteOk(s, e, first, |data|) {
      PrepareWriteEffect(s, e, first, |data|, end, w.outside);
      assert Gone(s, s') == {};
      WriteRefinesDone(s, s', e, w.memory, h, first, end, data, r.plan, w.outside);
    } else {
      assert PrepareWrite(s, e, first, |data|) == (s, BadWrite);
      QuietSame(s, 0, h);
    }
  }

  /** A table that reads as the history it belongs to. */
  lemma ExecutionReadsAs(s: Ledger, memory: Memory, h: Histories, k: ExecutionId, pages: seq<PageId>, history: History)
    requires k in s.executions && k in h.executions && h.executions[k] == history
    requires |history| == s.executions[k].processed && s.executions[k].pages == pages
    requires Reads(s, memory, pages, history)
    ensures ExecutionReads(s, s, memory, h, k)
  {
  }

  lemma CheckpointReadsAs(s: Ledger, memory: Memory, h: Histories, c: CheckpointId, pages: seq<PageId>,
      history: History)
    requires c in s.checkpoints && c in h.checkpoints && h.checkpoints[c] == history
    requires |history| == s.checkpoints[c].processed && s.checkpoints[c].pages == pages
    requires Reads(s, memory, pages, history)
    ensures CheckpointReads(s, s, memory, h, c)
  {
  }

  lemma WroteHistories(h: Histories, e: ExecutionId, data: seq<Row>)
    requires e in h.executions
    ensures After(h, Wrote(e, data), {}).checkpoints == h.checkpoints
    ensures After(h, Wrote(e, data), {}).executions == h.executions[e := h.executions[e] + data]
  {
  }

  lemma WriterExecution(s: Ledger, s': Ledger, e: ExecutionId, memory: Memory, h: Histories, first: nat, end: nat,
      data: seq<Row>, plan: WritePlan, outside: set<Allocation>)
    requires WriteCase(s, s', e, first, end, plan, outside) && end == first + |data| && e in h.executions
    requires |h.executions[e]| == first && Reads(s, memory, s.executions[e].pages, h.executions[e])
    ensures ExecutionReads(s', s', AfterWrite(s, s', e, memory, first, end, data, plan), After(h, Wrote(e, data), {}),
      e)
  {
    WriterReads(s, s', e, memory, h.executions[e], first, end, data, plan, outside);
    ExecutionReadsAs(s', AfterWrite(s, s', e, memory, first, end, data, plan), After(h, Wrote(e, data), {}), e,
        s'.executions[e].pages, h.executions[e] + data);
  }

  lemma OtherExecution(s: Ledger, s': Ledger, e: ExecutionId, memory: Memory, h: Histories, first: nat, end: nat,
      data: seq<Row>, plan: WritePlan, k: ExecutionId, outside: set<Allocation>)
    requires WriteCase(s, s', e, first, end, plan, outside) && end == first + |data| && e in h.executions
    requires ExecutionReads(s, s, memory, h, k) && k != e && k in s.executions && k in h.executions
    ensures ExecutionReads(s', s', AfterWrite(s, s', e, memory, first, end, data, plan), After(h, Wrote(e, data), {}),
      k)
  {
    var x := s.executions[k];
    assert s'.executions[k] == x;
    WroteHistories(h, e, data);
    OthersRead(s, s', e, memory, first, end, data, plan, x.pages, h.executions[k], outside);
    ExecutionReadsAs(s', AfterWrite(s, s', e, memory, first, end, data, plan), After(h, Wrote(e, data), {}), k,
        x.pages, h.executions[k]);
  }

  lemma WriteExecutions(s: Ledger, s': Ledger, e: ExecutionId, memory: Memory, h: Histories, first: nat, end: nat,
      data: seq<Row>, plan: WritePlan, k: ExecutionId, outside: set<Allocation>)
    requires WriteCase(s, s', e, first, end, plan, outside) && end == first + |data| && e in h.executions
    requires ExecutionReads(s, s, memory, h, k) && ExecutionDomain(s, h, k)
    ensures ExecutionReads(s', s', AfterWrite(s, s', e, memory, first, end, data, plan), After(h, Wrote(e, data), {}),
      k)
  {
    if k in s.executions {
      if k == e {
        WriterExecution(s, s', e, memory, h, first, end, data, plan, outside);
      } else {
        OtherExecution(s, s', e, memory, h, first, end, data, plan, k, outside);
      }
    }
  }

  lemma WriteCheckpoints(s: Ledger, s': Ledger, e: ExecutionId, memory: Memory, h: Histories, first: nat, end: nat,
      data: seq<Row>, plan: WritePlan, c: CheckpointId, outside: set<Allocation>)
    requires WriteCase(s, s', e, first, end, plan, outside) && end == first + |data| && e in h.executions
    requires CheckpointReads(s, s, memory, h, c) && CheckpointDomain(s, h, c)
    ensures CheckpointReads(s', s', AfterWrite(s, s', e, memory, first, end, data, plan), After(h, Wrote(e, data), {}),
      c)
  {
    if c in h.checkpoints {
      var k := s.checkpoints[c];
      assert s'.checkpoints[c] == k;
      WroteHistories(h, e, data);
      OthersRead(s, s', e, memory, first, end, data, plan, k.pages, h.checkpoints[c], outside);
      CheckpointReadsAs(s', AfterWrite(s, s', e, memory, first, end, data, plan), After(h, Wrote(e, data), {}), c,
          k.pages, h.checkpoints[c]);
    }
  }

  lemma WriteDomains(s: Ledger, s': Ledger, e: ExecutionId, h: Histories, end: nat, data: seq<Row>, plan: WritePlan)
    requires Domains(s, h) && e in s.executions && WriteEffect(s, s', e, end, plan)
    requires s.executions[e].capture.NoCapture?
    ensures Domains(s', After(h, Wrote(e, data), {}))
  {
    var h' := After(h, Wrote(e, data), {});
    assert ExecutionDomain(s, h, e);
    forall k ensures ExecutionDomain(s', h', k) { assert ExecutionDomain(s, h, k); }
    forall c ensures CheckpointDomain(s', h', c) { assert CheckpointDomain(s, h, c); }
  }

  lemma WriteRefinesDone(s: Ledger, s': Ledger, e: ExecutionId, memory: Memory, h: Histories, first: nat, end: nat,
      data: seq<Row>, plan: WritePlan, outside: set<Allocation>)
    requires WriteCase(s, s', e, first, end, plan, outside) && Refines(s, memory, h) && end == first + |data|
    requires s.executions[e].capture.NoCapture?
    ensures Refines(s', AfterWrite(s, s', e, memory, first, end, data, plan), After(h, Wrote(e, data), {}))
  {
    var memory', h' := AfterWrite(s, s', e, memory, first, end, data, plan), After(h, Wrote(e, data), {});
    assert ExecutionDomain(s, h, e);
    WriteDomains(s, s', e, h, end, data, plan);
    forall k ensures ExecutionReads(s', s', memory', h', k) {
      assert ExecutionReads(s, s, memory, h, k) && ExecutionDomain(s, h, k);
      WriteExecutions(s, s', e, memory, h, first, end, data, plan, k, outside);
    }
    forall c ensures CheckpointReads(s', s', memory', h', c) {
      assert CheckpointReads(s, s, memory, h, c) && CheckpointDomain(s, h, c);
      WriteCheckpoints(s, s', e, memory, h, first, end, data, plan, c, outside);
    }
  }
}
