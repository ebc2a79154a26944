/** The main theorems about the ledger, over every run of its operations. */
module KvSafety {
  import opened FreeRanges
  import opened BytePools
  import opened Totals
  import opened KvLedger
  import opened KvBooks
  import opened KvRecords
  import opened KvInvariant
  import opened KvReclaim
  import opened KvAdmission
  import opened KvWrites
  import opened KvContents
  import opened KvRuns

  // ------------------------------------------------------- one operation at a time

  lemma ResizeSound(s: Ledger, e: ExecutionId, limit: nat, memory: Memory, h: Histories, outside: set<Allocation>)
    requires Inv(s, outside, 0) && Refines(s, memory, h)
    ensures Sound(s, ResizeBatch(s, e, limit).0, memory, h, Quiet, outside)
  {
    ResizeBatchInv(s, e, limit, outside);
    ResizeSame(s, e, limit);
    SameRefines(s, ResizeBatch(s, e, limit).0, memory, h, outside);
  }

  lemma ResizeSame(s: Ledger, e: ExecutionId, limit: nat)
    ensures var s' := ResizeBatch(s, e, limit).0;
      && s'.config == s.config && s'.pages == s.pages && s'.checkpoints == s.checkpoints
      && (forall k :: ExecutionAlike(s, s', k)) && (forall c :: CheckpointSame(s, s', c))
  {
    var s' := ResizeBatch(s, e, limit).0;
    forall k ensures ExecutionAlike(s, s', k) {}
    forall c ensures CheckpointSame(s, s', c) {}
  }

  lemma StoreCaptureKeeps(s: Ledger, e: ExecutionId)
    requires e in s.executions && StoreCapture(s, e).Made?
    ensures var (s', capture) := StoreCapture(s, e).value;
      && capture.Capture? && s'.config == s.config && s'.pages == Retained(s.pages, s.executions[e].pages)
      && s'.executions == s.executions[e := s.executions[e].(capture := capture)] && s'.checkpoints == s.checkpoints
  {
  }

  lemma BeginCaptureKeeps(s: Ledger, e: ExecutionId)
    ensures var (s', r) := BeginCapture(s, e);
      if r.Done?
      then
        && e in s.executions && e in s'.executions && s'.executions[e].capture.Capture? && s'.config == s.config
        && s'.pages == Retained(s.pages, s.executions[e].pages) && s'.checkpoints == s.checkpoints
        && s'.executions == s.executions[e := s.executions[e].(capture := s'.executions[e].capture)]
      else s' == s
  {
    if BeginCapture(s, e).1.Done? { StoreCaptureKeeps(s, e); }
  }

  lemma CaptureSound(s: Ledger, e: ExecutionId, memory: Memory, h: Histories, outside: set<Allocation>)
    requires Inv(s, outside, 0) && Refines(s, memory, h)
    ensures var (s', r) := BeginCapture(s, e);
      Sound(s, s', memory, h, if r.Done? then CaptureBegun(e) else Quiet, outside)
  {
    BeginCaptureInv(s, e, outside);
    BeginCaptureKeeps(s, e);
    var (s', r) := BeginCapture(s, e);
    if r.Done? {
      CaptureRefines(s, s', e, memory, h, outside);
    } else {
      QuietSame(s, 0, h);
    }
  }

  lemma CaptureRefines(s: Ledger, s': Ledger, e: ExecutionId, memory: Memory, h: Histories, outside: set<Allocation>)
    requires Refines(s, memory, h) && Books(s', multiset{}, outside, 0) && e in s.executions
    requires s'.config == s.config && s'.pages == Retained(s.pages, s.executions[e].pages)
      && s'.checkpoints == s.checkpoints
    requires e in s'.executions && s'.executions[e].capture.Capture?
    requires s'.executions == s.executions[e := s.executions[e].(capture := s'.executions[e].capture)]
    ensures Refines(s', memory, After(h, CaptureBegun(e), Gone(s, s')))
  {
    assert Gone(s, s') == {};
    var h' := After(h, CaptureBegun(e), {});
    assert ExecutionDomain(s, h, e);
    forall p ensures SameStorage(s, s', p) {}
    forall k ensures ExecutionSame(s, s', k) && HistorySame(h, h', k) {}
    forall c ensures CheckpointSame(s, s', c) && StateSame(h, h', c) {}
    forall k ensures ExecutionDomain(s', h', k) { assert ExecutionDomain(s, h, k); }
    forall c ensures CheckpointDomain(s', h', c) { assert CheckpointDomain(s, h, c); }
    QuietRefines(s, s', memory, h, h', outside);
  }

  lemma PublishSound(s: Ledger, e: ExecutionId, snapshot: Allocation, hidden: Allocation, memory: Memory, h: Histories,
      outside: set<Allocation>)
    requires Inv(s, outside, 0) && Refines(s, memory, h)
    ensures var (s', r) := Publish(s, e, snapshot, hidden);
      && (r.Done? ==> r.value !in s.checkpoints)
      && Sound(s, s', memory, h, if r.Done? then Published(e, r.value) else Quiet, outside)
  {
    PublishInv(s, e, snapshot, hidden, outside);
    var (s', r) := Publish(s, e, snapshot, hidden);
    if r.Done? {
      PublishRefines(s, s', e, memory, h, outside);
    } else {
      assert s' == s;
      QuietSame(s, 0, h);
    }
  }

  lemma PublishDomains(s: Ledger, s': Ledger, e: ExecutionId, h: Histories)
    requires Domains(s, h) && e in s.executions && s.executions[e].capture.Capture?
    requires s.nextCheckpoint in s'.checkpoints
    requires s'.checkpoints == s.checkpoints[s.nextCheckpoint := s'.checkpoints[s.nextCheckpoint]]
    requires s'.executions == s.executions[e := s.executions[e].(capture := NoCapture)]
    ensures Domains(s', After(h, Published(e, s.nextCheckpoint), Gone(s, s')))
  {
    assert Gone(s, s') == {};
    var h' := After(h, Published(e, s.nextCheckpoint), {});
    assert ExecutionDomain(s, h, e);
    forall k ensures ExecutionDomain(s', h', k) { assert ExecutionDomain(s, h, k); }
    forall c ensures CheckpointDomain(s', h', c) { assert CheckpointDomain(s, h, c); }
  }

  lemma PublishCarries(s: Ledger, s': Ledger, e: ExecutionId, memory: Memory, h: Histories)
    requires Refines(s, memory, h) && e in s.executions && s.executions[e].capture.Capture?
    requires s.nextCheckpoint in s'.checkpoints
    requires s'.checkpoints == s.checkpoints[s.nextCheckpoint := s'.checkpoints[s.nextCheckpoint]]
    requires s'.checkpoints[s.nextCheckpoint].pages == s.executions[e].pages
    requires s'.checkpoints[s.nextCheckpoint].processed == s.executions[e].processed
    requires s'.executions == s.executions[e := s.executions[e].(capture := NoCapture)]
    ensures Carried(s, s', memory, After(h, Published(e, s.nextCheckpoint), Gone(s, s')))
  {
    assert Gone(s, s') == {};
    var h' := After(h, Published(e, s.nextCheckpoint), {});
    assert ExecutionDomain(s, h, e) && ExecutionReads(s, s, memory, h, e);
    forall k ensures ExecutionReads(s, s', memory, h', k) { assert ExecutionReads(s, s, memory, h, k); }
    forall c ensures CheckpointReads(s, s', memory, h', c) { assert CheckpointReads(s, s, memory, h, c); }
  }

  lemma PublishRefines(s: Ledger, s': Ledger, e: ExecutionId, memory: Memory, h: Histories, outside: set<Allocation>)
    requires Refines(s, memory, h) && Books(s', multiset{}, outside, 0) && Ids(s) && e in s.executions
      && s.executions[e].capture.Capture?
    requires s'.config == s.config && s'.pages == s.pages
    requires s.nextCheckpoint in s'.checkpoints
    requires s'.checkpoints == s.checkpoints[s.nextCheckpoint := s'.checkpoints[s.nextCheckpoint]]
    requires s'.checkpoints[s.nextCheckpoint].pages == s.executions[e].pages
    requires s'.checkpoints[s.nextCheckpoint].processed == s.executions[e].processed
    requires s'.executions == s.executions[e := s.executions[e].(capture := NoCapture)]
    ensures Refines(s', memory, After(h, Published(e, s.nextCheckpoint), Gone(s, s')))
  {
    PublishDomains(s, s', e, h);
    PublishCarries(s, s', e, memory, h);
    forall p ensures SameStorage(s, s', p) {}
    CarriedRefines(s, s', memory, After(h, Published(e, s.nextCheckpoint), Gone(s, s')), outside);
  }

  lemma AbortSound(s: Ledger, e: ExecutionId, memory: Memory, h: Histories, outside: set<Allocation>)
    requires Inv(s, outside, 0) && Refines(s, memory, h) && e in s.executions
    ensures Sound(s, AbortCapture(s, e), memory, h, CaptureAborted(e), outside)
  {
    AbortCaptureInv(s, e, outside);
    var s' := AbortCapture(s, e);
    AbortRefines(s, s', e, memory, h, outside);
  }

  lemma AbortRefines(s: Ledger, s': Ledger, e: ExecutionId, memory: Memory, h: Histories, outside: set<Allocation>)
    requires Refines(s, memory, h) && Books(s', multiset{}, outside, 0) && Shrinks(s, s') && e in s.executions
    requires s'.executions == s.executions[e := s.executions[e].(capture := NoCapture)]
      && s'.checkpoints == s.checkpoints
    ensures Refines(s', memory, After(h, CaptureAborted(e), Gone(s, s')))
  {
    assert Gone(s, s') == {};
    var h' := After(h, CaptureAborted(e), {});
    ShrinksStorage(s, s');
    forall k ensures ExecutionSame(s, s', k) && HistorySame(h, h', k) {}
    forall c ensures CheckpointSame(s, s', c) && StateSame(h, h', c) {}
    forall k ensures ExecutionDomain(s', h', k) { assert ExecutionDomain(s, h, k); }
    forall c ensures CheckpointDomain(s', h', c) { assert CheckpointDomain(s, h, c); }
    QuietRefines(s, s', memory, h, h', outside);
  }

  lemma ReleaseSound(s: Ledger, e: ExecutionId, memory: Memory, h: Histories, outside: set<Allocation>)
    requires Inv(s, outside, 0) && Refines(s, memory, h)
    ensures Sound(s, ReleaseExecution(s, e).0, memory, h, if e in s.executions then Ended(e) else Quiet, outside)
  {
    if e in s.executions {
      ReleaseExecutionInv(s, e, outside);
      UnborrowedSame(s, ReleaseExecution(s, e).0, s.executions[e].source);
      ReleaseRefines(s, ReleaseExecution(s, e).0, e, memory, h, outside);
    } else {
      QuietSame(s, 0, h);
    }
  }

  lemma UnborrowedSame(s: Ledger, s': Ledger, source: CheckpointId)
    requires s'.checkpoints == Unborrowed(s.checkpoints, source)
    ensures s'.checkpoints.Keys == s.checkpoints.Keys && (forall c :: CheckpointSame(s, s', c))
  {
    forall c ensures CheckpointSame(s, s', c) {}
  }

  lemma ReleaseRefines(s: Ledger, s': Ledger, e: ExecutionId, memory: Memory, h: Histories, outside: set<Allocation>)
    requires Refines(s, memory, h) && Books(s', multiset{}, outside, 0) && Shrinks(s, s') && e in s.executions
    requires s'.executions == s.executions - {e}
    requires s'.checkpoints.Keys == s.checkpoints.Keys && (forall c :: CheckpointSame(s, s', c))
    ensures Refines(s', memory, After(h, Ended(e), Gone(s, s')))
  {
    assert Gone(s, s') == {};
    var h' := After(h, Ended(e), {});
    ShrinksStorage(s, s');
    forall k ensures ExecutionSame(s, s', k) && HistorySame(h, h', k) {}
    forall c ensures StateSame(h, h', c) {}
    forall k ensures ExecutionDomain(s', h', k) { assert ExecutionDomain(s, h, k); }
    forall c ensures CheckpointDomain(s', h', c) { assert CheckpointDomain(s, h, c); }
    QuietRefines(s, s', memory, h, h', outside);
  }

  lemma EraseFields(s: Ledger, c: CheckpointId)
    requires c in s.checkpoints
    ensures EraseCheckpoint(s, c).executions == s.executions && EraseCheckpoint(s, c).checkpoints == s.checkpoints - {c}
  {
    ReleaseAllFrame(s, s.checkpoints[c].pages, s.checkpoints, s.executions);
  }

  lemma DropSound(s: Ledger, c: CheckpointId, memory: Memory, h: Histories, outside: set<Allocation>)
    requires Inv(s, outside, 0) && Refines(s, memory, h)
    ensures Sound(s, ReleaseCheckpoint(s, c).0, memory, h, Quiet, outside)
  {
    if c in s.checkpoints && Idle(s.checkpoints[c]) {
      EraseCheckpointInv(s, c, outside);
      EraseFields(s, c);
      DropRefines(s, EraseCheckpoint(s, c), c, memory, h, outside);
    } else {
      QuietSame(s, 0, h);
    }
  }

  lemma DropRefines(s: Ledger, s': Ledger, c: CheckpointId, memory: Memory, h: Histories, outside: set<Allocation>)
    requires Refines(s, memory, h) && Books(s', multiset{}, outside, 0) && Shrinks(s, s') && c in s.checkpoints
    requires s'.executions == s.executions && s'.checkpoints == s.checkpoints - {c}
    ensures Refines(s', memory, After(h, Quiet, Gone(s, s')))
  {
    assert Gone(s, s') == {c};
    var h' := After(h, Quiet, {c});
    ShrinksStorage(s, s');
    DropDomains(s, s', c, h);
    QuietRefines(s, s', memory, h, h', outside);
  }

  lemma DropDomains(s: Ledger, s': Ledger, c: CheckpointId, h: Histories)
    requires Domains(s, h) && s'.executions == s.executions && s'.checkpoints == s.checkpoints - {c}
    ensures var h' := After(h, Quiet, {c});
      && Domains(s', h') && (forall k :: ExecutionSame(s, s', k) && HistorySame(h, h', k))
      && (forall d :: CheckpointSame(s, s', d) && StateSame(h, h', d))
  {
    var h' := After(h, Quiet, {c});
    forall k ensures ExecutionSame(s, s', k) && HistorySame(h, h', k) {}
    forall d ensures CheckpointSame(s, s', d) && StateSame(h, h', d) {}
    forall k ensures ExecutionDomain(s', h', k) { assert ExecutionDomain(s, h, k); }
    forall d ensures CheckpointDomain(s', h', d) { assert CheckpointDomain(s, h, d); }
  }

  predicate ExecutionAlike(s: Ledger, s': Ledger, k: ExecutionId) {
    && (k in s'.executions <==> k in s.executions)
    && (k in s.executions ==>
          && s'.executions[k].pages == s.executions[k].pages && s'.executions[k].processed == s.executions[k].processed
          && s'.executions[k].capture == s.executions[k].capture)
  }

  /** Steps that touch neither pages nor the length and table of any record. */
  lemma SameRefines(s: Ledger, s': Ledger, memory: Memory, h: Histories, outside: set<Allocation>)
    requires Refines(s, memory, h) && Books(s', multiset{}, outside, 0)
    requires s'.config == s.config && s'.pages == s.pages && (forall k :: ExecutionAlike(s, s', k))
    requires s'.checkpoints.Keys == s.checkpoints.Keys && (forall c :: CheckpointSame(s, s', c))
    ensures Refines(s', memory, After(h, Quiet, Gone(s, s')))
  {
    QuietSame(s, 0, h);
    assert Gone(s, s') == {};
    forall p ensures SameStorage(s, s', p) {}
    forall k ensures ExecutionSame(s, s', k) && HistorySame(h, h, k) { assert ExecutionAlike(s, s', k); }
    forall c ensures StateSame(h, h, c) {}
    forall k ensures ExecutionDomain(s', h, k) { assert ExecutionDomain(s, h, k) && ExecutionAlike(s, s', k); }
    forall c ensures CheckpointDomain(s', h, c) { assert CheckpointDomain(s, h, c); }
    QuietRefines(s, s', memory, h, h, outside);
  }

  lemma PinSound(s: Ledger, c: CheckpointId, pins: nat, memory: Memory, h: Histories, outside: set<Allocation>)
    requires Inv(s, outside, 0) && Refines(s, memory, h) && c in s.checkpoints
    ensures Sound(s, Repinned(s, c, pins), memory, h, Quiet, outside)
  {
    RepinInv(s, c, pins, outside);
    var s' := Repinned(s, c, pins);
    forall d ensures CheckpointSame(s, s', d) {}
    forall k ensures ExecutionAlike(s, s', k) {}
    SameRefines(s, s', memory, h, outside);
  }

  lemma AllocateSound(s: Ledger, bytes: nat, alignment: nat, memory: Memory, h: Histories, outside: set<Allocation>)
    requires Inv(s, outside, 0) && Refines(s, memory, h)
    ensures var (s', r) := AllocateOutside(s, bytes, alignment);
      Sound(s, s', memory, h, Quiet, if r.Done? then outside + {r.value} else outside)
  {
    var (s', r) := AllocateOutside(s, bytes, alignment);
    if r.Done? {
      AllocateOutsideInv(s, bytes, alignment, outside);
      forall d ensures CheckpointSame(s, s', d) {}
      forall k ensures ExecutionAlike(s, s', k) {}
      SameRefines(s, s', memory, h, outside + {r.value});
    } else {
      QuietSame(s, 0, h);
    }
  }

  lemma FreeSound(s: Ledger, x: Allocation, memory: Memory, h: Histories, outside: set<Allocation>)
    requires Inv(s, outside, 0) && Refines(s, memory, h) && (x in outside || x !in s.pool.live)
    ensures Sound(s, ReleaseOutside(s, x), memory, h, Quiet, outside - {x})
  {
    if x in outside {
      ReleaseOutsideInv(s, x, outside);
      forall d ensures CheckpointSame(s, ReleaseOutside(s, x), d) {}
      forall k ensures ExecutionAlike(s, ReleaseOutside(s, x), k) {}
      SameRefines(s, ReleaseOutside(s, x), memory, h, outside - {x});
    } else {
      QuietSame(s, 0, h);
      assert outside - {x} == outside;
    }
  }

  // ------------------------------------------------------------------ every step

  /** Identifiers are fresh, and an in-limit write always happens. */
  predicate Announced(w: World, op: Op, event: Event, w': World) {
    match event
    case Started(id, _) => id !in w.ledger.executions
    case Published(_, c) => c !in w.ledger.checkpoints
    case _ => op.Write? ==> !WriteOk(w.ledger, op.execution, op.first, |op.data|) || event == Wrote(op.execution,
        op.data)
  }

  ghost predicate StepOk(w: World, op: Op, h: Histories) {
    var (w', event) := Step(w, op);
    Sound(w.ledger, w'.ledger, w'.memory, h, event, w'.outside) && Announced(w, op, event, w')
  }

  lemma Sealed(w: World, op: Op, h: Histories, w': World, event: Event)
    requires Step(w, op) == (w', event) && Announced(w, op, event, w')
    requires Sound(w.ledger, w'.ledger, w'.memory, h, event, w'.outside)
    ensures StepOk(w, op, h)
  {
  }

  lemma StayedSound(w: World, h: Histories)
    requires Inv(w.ledger, w.outside, 0) && Refines(w.ledger, w.memory, h)
    ensures Sound(w.ledger, w.ledger, w.memory, h, Quiet, w.outside)
  {
    QuietSame(w.ledger, 0, h);
  }

  lemma BeginStep(w: World, c: CheckpointId, limit: nat, select: Selector, h: Histories)
    requires Inv(w.ledger, w.outside, 0) && Refines(w.ledger, w.memory, h)
    ensures StepOk(w, Begin(c, limit, select), h)
  {
    BeginBatchInv(w.ledger, c, limit, select, w.outside);
    BeginRefines(w.ledger, c, limit, select, w.memory, h, w.outside);
    var (s', r) := BeginBatch(w.ledger, c, limit, select);
    Sealed(w, Begin(c, limit, select), h, w.(ledger := s'), if r.Done? then Started(r.value, OriginOf(c)) else Quiet);
  }

  lemma ForkStep(w: World, e: ExecutionId, limit: nat, select: Selector, h: Histories)
    requires Inv(w.ledger, w.outside, 0) && Refines(w.ledger, w.memory, h)
    ensures StepOk(w, Fork(e, limit, select), h)
  {
    ForkBatchInv(w.ledger, e, limit, select, w.outside);
    ForkRefines(w.ledger, e, limit, select, w.memory, h, w.outside);
    var (s', r) := ForkBatch(w.ledger, e, limit, select);
    Sealed(w, Fork(e, limit, select), h, w.(ledger := s'), if r.Done? then Started(r.value, OfExecution(e)) else Quiet);
  }

  lemma WriteStepOk(w: World, e: ExecutionId, first: nat, data: seq<Row>, h: Histories)
    requires Inv(w.ledger, w.outside, 0) && Refines(w.ledger, w.memory, h)
    ensures StepOk(w, Write(e, first, data), h)
  {
    var end: nat := first + |data|;
    WriteRefines(w, e, first, end, data, h);
    var (w', event) := WriteStep(w, e, first, end, data);
    StepWrite(w, e, first, data, end);
    Sealed(w, Write(e, first, data), h, w', event);
  }

  lemma StepWrite(w: World, e: ExecutionId, first: nat, data: seq<Row>, end: nat)
    requires end == first + |data|
    ensures Step(w, Write(e, first, data)) == WriteStep(w, e, first, end, data)
  {
  }

  lemma ExecutionStep(w: World, op: Op, h: Histories)
    requires Inv(w.ledger, w.outside, 0) && Refines(w.ledger, w.memory, h)
    requires op.Resize? || op.Release?
    ensures StepOk(w, op, h)
  {
    if op.Resize? {
      ResizeSound(w.ledger, op.execution, op.limit, w.memory, h, w.outside);
      Sealed(w, op, h, w.(ledger := ResizeBatch(w.ledger, op.execution, op.limit).0), Quiet);
    } else {
      ReleaseSound(w.ledger, op.execution, w.memory, h, w.outside);
      Sealed(w, op, h, w.(ledger := ReleaseExecution(w.ledger, op.execution).0),
             if op.execution in w.ledger.executions then Ended(op.execution) else Quiet);
    }
  }

  lemma StepCapture(w: World, e: ExecutionId)
    ensures var (s', r) := BeginCapture(w.ledger, e);
      Step(w, CaptureState(e)) == (w.(ledger := s'), if r.Done? then CaptureBegun(e) else Quiet)
  {
  }

  lemma CaptureStep(w: World, e: ExecutionId, h: Histories)
    requires Inv(w.ledger, w.outside, 0) && Refines(w.ledger, w.memory, h)
    ensures StepOk(w, CaptureState(e), h)
  {
    CaptureSound(w.ledger, e, w.memory, h, w.outside);
    StepCapture(w, e);
    var (s', r) := BeginCapture(w.ledger, e);
    Sealed(w, CaptureState(e), h, w.(ledger := s'), if r.Done? then CaptureBegun(e) else Quiet);
  }

  lemma StepPublish(w: World, e: ExecutionId, snapshot: Allocation, hidden: Allocation)
    ensures var (s', r) := Publish(w.ledger, e, snapshot, hidden);
      Step(w, PublishState(e, snapshot, hidden))
      == (w.(ledger := s'), if r.Done? then Published(e, r.value) else Quiet)
  {
  }

  lemma PublishStep(w: World, e: ExecutionId, snapshot: Allocation, hidden: Allocation, h: Histories)
    requires Inv(w.ledger, w.outside, 0) && Refines(w.ledger, w.memory, h)
    ensures StepOk(w, PublishState(e, snapshot, hidden), h)
  {
    PublishSound(w.ledger, e, snapshot, hidden, w.memory, h, w.outside);
    StepPublish(w, e, snapshot, hidden);
    var (s', r) := Publish(w.ledger, e, snapshot, hidden);
    Sealed(w, PublishState(e, snapshot, hidden), h, w.(ledger := s'), if r.Done? then Published(e, r.value) else Quiet);
  }

  lemma AbortStep(w: World, e: ExecutionId, h: Histories)
    requires Inv(w.ledger, w.outside, 0) && Refines(w.ledger, w.memory, h)
    ensures StepOk(w, Abort(e), h)
  {
    if e in w.ledger.executions {
      AbortSound(w.ledger, e, w.memory, h, w.outside);
      Sealed(w, Abort(e), h, w.(ledger := AbortCapture(w.ledger, e)), CaptureAborted(e));
    } else {
      StayedSound(w, h);
      Sealed(w, Abort(e), h, w, Quiet);
    }
  }

  lemma StepPin(w: World, c: CheckpointId, pins: nat)
    requires c in w.ledger.checkpoints && pins == w.ledger.checkpoints[c].pins + 1
    ensures Step(w, PinState(c)) == (w.(ledger := Repinned(w.ledger, c, pins)), Quiet)
  {
    PinIs(w.ledger, c, pins);
  }

  lemma StepUnpin(w: World, c: CheckpointId, pins: nat)
    requires c in w.ledger.checkpoints && pins + 1 == w.ledger.checkpoints[c].pins
    ensures Step(w, UnpinState(c)) == (w.(ledger := Repinned(w.ledger, c, pins)), Quiet)
  {
    UnpinIs(w.ledger, c, pins);
  }

  lemma PinStep(w: World, c: CheckpointId, h: Histories)
    requires Inv(w.ledger, w.outside, 0) && Refines(w.ledger, w.memory, h)
    ensures StepOk(w, PinState(c), h)
  {
    if c !in w.ledger.checkpoints {
      StayedSound(w, h);
      Sealed(w, PinState(c), h, w, Quiet);
    } else {
      var pins := w.ledger.checkpoints[c].pins + 1;
      StepPin(w, c, pins);
      PinSound(w.ledger, c, pins, w.memory, h, w.outside);
      Sealed(w, PinState(c), h, w.(ledger := Repinned(w.ledger, c, pins)), Quiet);
    }
  }

  lemma UnpinStep(w: World, c: CheckpointId, h: Histories)
    requires Inv(w.ledger, w.outside, 0) && Refines(w.ledger, w.memory, h)
    ensures StepOk(w, UnpinState(c), h)
  {
    if c !in w.ledger.checkpoints || w.ledger.checkpoints[c].pins == 0 {
      StayedSound(w, h);
      Sealed(w, UnpinState(c), h, w, Quiet);
    } else {
      var pins: nat := w.ledger.checkpoints[c].pins - 1;
      StepUnpin(w, c, pins);
      PinSound(w.ledger, c, pins, w.memory, h, w.outside);
      Sealed(w, UnpinState(c), h, w.(ledger := Repinned(w.ledger, c, pins)), Quiet);
    }
  }

  lemma DropStep(w: World, c: CheckpointId, h: Histories)
    requires Inv(w.ledger, w.outside, 0) && Refines(w.ledger, w.memory, h)
    ensures StepOk(w, Drop(c), h)
  {
    DropSound(w.ledger, c, w.memory, h, w.outside);
    Sealed(w, Drop(c), h, w.(ledger := ReleaseCheckpoint(w.ledger, c).0), Quiet);
  }

  lemma FreeStep(w: World, x: Allocation, h: Histories)
    requires Inv(w.ledger, w.outside, 0) && Refines(w.ledger, w.memory, h) && Legal(w, FreeBytes(x))
    ensures StepOk(w, FreeBytes(x), h)
  {
    FreeSound(w.ledger, x, w.memory, h, w.outside);
    Sealed(w, FreeBytes(x), h, World(ReleaseOutside(w.ledger, x), w.memory, w.outside - {x}), Quiet);
  }

  lemma AllocateStep(w: World, bytes: nat, alignment: nat, h: Histories)
    requires Inv(w.ledger, w.outside, 0) && Refines(w.ledger, w.memory, h)
    ensures StepOk(w, AllocateBytes(bytes, alignment), h)
  {
    AllocateSound(w.ledger, bytes, alignment, w.memory, h, w.outside);
    var (s', r) := AllocateOutside(w.ledger, bytes, alignment);
    var outside' := if r.Done? then w.outside + {r.value} else w.outside;
    Sealed(w, AllocateBytes(bytes, alignment), h, World(s', w.memory, outside'), Quiet);
  }

  /** Every operation keeps the invariant, and its whole effect on what executions, captures
      and checkpoints hold is the effect of its event on private histories. */
  lemma StepSound(w: World, op: Op, h: Histories)
    requires Inv(w.ledger, w.outside, 0) && Refines(w.ledger, w.memory, h) && Legal(w, op)
    ensures var (w', event) := Step(w, op);
      && Sound(w.ledger, w'.ledger, w'.memory, h, event, w'.outside)
      && Announced(w, op, event, w')
  {
    assert StepOk(w, op, h) by {
      match op
      case Begin(c, limit, select) => BeginStep(w, c, limit, select, h);
      case Fork(e, limit, select) => ForkStep(w, e, limit, select, h);
      case Write(e, first, data) => WriteStepOk(w, e, first, data, h);
      case Drop(c) => DropStep(w, c, h);
      case CaptureState(e) => CaptureStep(w, e, h);
      case PublishState(e, snapshot, hidden) => PublishStep(w, e, snapshot, hidden, h);
      case Abort(e) => AbortStep(w, e, h);
      case AllocateBytes(bytes, alignment) => AllocateStep(w, bytes, alignment, h);
      case FreeBytes(x) => FreeStep(w, x, h);
      case PinState(c) => PinStep(w, c, h);
      case UnpinState(c) => UnpinStep(w, c, h);
      case _ => ExecutionStep(w, op, h);
    }
  }

  // ------------------------------------------------------------------ whole runs

  ghost function Run(w: World, ops: seq<Op>): World
    decreases |ops|
  {
    if ops == [] then w else Run(Step(w, ops[0]).0, ops[1..])
  }

  ghost predicate LegalRun(w: World, ops: seq<Op>)
    decreases |ops|
  {
    ops != [] ==> Legal(w, ops[0]) && LegalRun(Step(w, ops[0]).0, ops[1..])
  }

  /** The same run on private histories. */
  ghost function Replay(w: World, ops: seq<Op>, h: Histories): Histories
    decreases |ops|
  {
    if ops == [] then h
    else
      var (w', event) := Step(w, ops[0]);
      Replay(w', ops[1..], After(h, event, Gone(w.ledger, w'.ledger)))
  }

  lemma {:induction false} RunSound(w: World, ops: seq<Op>, h: Histories)
    requires Inv(w.ledger, w.outside, 0) && Refines(w.ledger, w.memory, h) && LegalRun(w, ops)
    ensures Inv(Run(w, ops).ledger, Run(w, ops).outside, 0)
    ensures Refines(Run(w, ops).ledger, Run(w, ops).memory, Replay(w, ops, h))
    decreases |ops|
  {
    if ops != [] {
      var (w', event) := Step(w, ops[0]);
      StepSound(w, ops[0], h);
      RunSound(w', ops[1..], After(h, event, Gone(w.ledger, w'.ledger)));
    }
  }

  ghost function Boot(config: ValidConfig, memory: Memory): World { World(Initial(config), memory, {}) }

  const Empty := Histories(map[], map[], map[])

  lemma InitialRefines(config: ValidConfig, memory: Memory)
    ensures Refines(Initial(config), memory, Empty)
  {
    var s := Initial(config);
    forall k ensures ExecutionDomain(s, Empty, k) && ExecutionReads(s, s, memory, Empty, k) {}
    forall c ensures CheckpointDomain(s, Empty, c) && CheckpointReads(s, s, memory, Empty, c) {}
  }

  /** Reachable states: from an empty ledger, any legal interleaving of operations. */
  lemma Reachable(config: ValidConfig, memory: Memory, ops: seq<Op>)
    requires LegalRun(Boot(config, memory), ops)
    ensures var w := Run(Boot(config, memory), ops);
      && Inv(w.ledger, w.outside, 0)
      && Refines(w.ledger, w.memory, Replay(Boot(config, memory), ops, Empty))
  {
    InvInitial(config);
    InitialRefines(config, memory);
    RunSound(Boot(config, memory), ops, Empty);
  }

  /** Reservation safety: after any interleaving, the free ranges and the index hold every
      promised page, and a write within an admitted limit exhausts neither. */
  lemma ReservationSafety(config: ValidConfig, memory: Memory, ops: seq<Op>, e: ExecutionId, first: nat, count: nat)
    requires LegalRun(Boot(config, memory), ops)
    ensures var s := Run(Boot(config, memory), ops).ledger;
      && TakeAll(s.pool.free, Repeat(s.config.pageBytes, Reserved(s)), ALIGNMENT).AllFit?
      && s.indexUsed + Reserved(s) * PAGE_INFO_BYTES <= s.config.indexBytes
      && !PrepareWrite(s, e, first, count).1.OutOfBudget?
      && (WriteOk(s, e, first, count) ==> PrepareWrite(s, e, first, count).1.Written?)
  {
    Reachable(config, memory, ops);
    var w := Run(Boot(config, memory), ops);
    AlignmentOk();
    TakeAllUniform(w.ledger.pool.free, Reserved(w.ledger), w.ledger.config.pageBytes, ALIGNMENT,
        w.ledger.pool.capacity);
    PrepareWriteInv(w.ledger, e, first, count, w.outside);
  }

  /** Copy-on-write isolation: after any interleaving, what a live execution or checkpoint reads
      through its pages is the history it would own privately. */
  lemma Isolation(config: ValidConfig, memory: Memory, ops: seq<Op>)
    requires LegalRun(Boot(config, memory), ops)
    ensures var w, h := Run(Boot(config, memory), ops), Replay(Boot(config, memory), ops, Empty);
      && h.executions.Keys == w.ledger.executions.Keys && h.checkpoints.Keys == w.ledger.checkpoints.Keys
      && (forall k | k in h.executions ::
            |h.executions[k]| == w.ledger.executions[k].processed
            && Reads(w.ledger, w.memory, w.ledger.executions[k].pages, h.executions[k]))
      && (forall c | c in h.checkpoints ::
            |h.checkpoints[c]| == w.ledger.checkpoints[c].processed
            && Reads(w.ledger, w.memory, w.ledger.checkpoints[c].pages, h.checkpoints[c]))
  {
    Reachable(config, memory, ops);
    var w, h := Run(Boot(config, memory), ops), Replay(Boot(config, memory), ops, Empty);
    assert h.executions.Keys == w.ledger.executions.Keys by {
      forall k ensures k in h.executions <==> k in w.ledger.executions { assert ExecutionDomain(w.ledger, h, k); }
    }
    assert h.checkpoints.Keys == w.ledger.checkpoints.Keys by {
      forall c ensures c in h.checkpoints <==> c in w.ledger.checkpoints { assert CheckpointDomain(w.ledger, h, c); }
    }
    forall k | k in h.executions
      ensures |h.executions[k]| == w.ledger.executions[k].processed
              && Reads(w.ledger, w.memory, w.ledger.executions[k].pages, h.executions[k])
    {
      assert ExecutionReads(w.ledger, w.ledger, w.memory, h, k);
    }
    forall c | c in h.checkpoints
      ensures |h.checkpoints[c]| == w.ledger.checkpoints[c].processed
              && Reads(w.ledger, w.memory, w.ledger.checkpoints[c].pages, h.checkpoints[c])
    {
      assert CheckpointReads(w.ledger, w.ledger, w.memory, h, c);
    }
  }
}
