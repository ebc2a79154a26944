/** The life cycle of HTTP clients as atomic steps of three parties: the I/O thread, the
    preparation workers, and the owner of the GPU. A step is one stretch of code between lock
    operations; between any two steps of one party the others may take theirs. */
module HttpLifecycle {
  import opened Totals

  type Id = nat
  type Token = nat

  /** The tokens of one emission; empty means none. */
  type Burst = seq<Token>

  /** A client's flags, then its history: bursts accepted from the GPU owner, bursts handed to the
      output in full, whether the output refused one, whether the result was replied, and the end
      notices raised. */
  datatype Client = Client(
    alive: bool, requestComplete: bool, workerActive: bool, admitted: bool, terminal: bool,
    reserved: bool, occupied: bool, tokens: Burst, result: bool, error: bool, prepared: bool,
    admissionPending: bool, cancellationPending: bool, completionPending: bool, stopPending: bool, stopNotified: bool,
    wire: bool, closing: bool, success: bool, deferred: bool, responseSent: bool, charge: nat,
    emitted: seq<Burst>, pushed: seq<Burst>, broken: bool, replied: bool, completions: nat, cancellations: nat)

  const Connected := Client(
    true, false, false, false, false, false, false, [], false, false, false, false, false, false, false, false,
    false, false, false, false, false, 0, [], [], false, false, 0, 0)

  /** What the I/O thread holds, outside the lock, for the client it is processing. */
  datatype Hand =
    | Nothing
    | Entered(error: bool, prepared: bool)
    | Checked
    | Taken(tokens: Burst, result: bool)
    | Pushed(result: bool, stopMatched: bool)

  /** One client and the I/O thread's hand on it. */
  datatype Local = Local(c: Client, hand: Hand)

  // ---------------------------------------------------------------- the steps of one client

  datatype Action =
    // I/O thread: reading
    | Headers(length: nat, room: bool) | SubmitJob | SubmitDirect | BadRequest
    // I/O thread: processing
    | Enter | FailWait | FailReply | FailDrop | FailAgain | Answer | Refuse | Admit | Pass
    | Take | Push(pushOk: bool, streams: bool, stops: bool) | NotifyStop | Respond(respondOk: bool, starts: bool)
        | Settle
    // I/O thread: writing and leaving
    | Write(full: bool) | Drop
    // workers
    | WorkDone(parsed: bool)
    // GPU owner
    | Ready | Emit(burst: Burst) | Finish | Reject

  predicate OfOwner(a: Action) { a.Ready? || a.Emit? || a.Finish? || a.Reject? }
  predicate OfIo(a: Action) { !a.WorkDone? && !OfOwner(a) }

  predicate Completes(c: Client, delivered: bool) { delivered && c.admitted && c.success }

  predicate Cancels(c: Client, delivered: bool) { !Completes(c, delivered) && (c.admitted || c.workerActive) }

  /** `disconnect`: a completion for a delivered success, else a cancellation for a client that is
      admitted or being prepared. */
  function Disconnected(c: Client, delivered: bool): Client {
    if !c.alive then c
    else
      c.(alive := false,
         completionPending := c.completionPending || Completes(c, delivered),
         completions := c.completions + (if Completes(c, delivered) then 1 else 0),
         cancellationPending := c.cancellationPending || Cancels(c, delivered),
         cancellations := c.cancellations + (if Cancels(c, delivered) then 1 else 0),
         charge := if c.workerActive then c.charge else 0,
         prepared := false, tokens := [], result := false, error := false, wire := false, deferred := false)
  }

  /** Whether the slot is free again: nothing waits in it and more may come. */
  predicate Frees(c: Client) { c.occupied && c.tokens == [] && !c.result && !c.terminal }

  /** Whether `ready` answers true. */
  predicate IsReady(c: Client) { c.alive && c.admitted && !c.terminal && !c.stopPending && !c.occupied }

  /** Whether `emit` accepts a burst for a living client instead of raising an error. The step
      changes nothing when it raises. */
  predicate Accepts(c: Client) { c.admitted && !c.terminal && c.reserved && !c.occupied && c.tokens == [] }

  predicate Reads(l: Local) { l.hand.Nothing? && l.c.alive && !l.c.closing && !l.c.requestComplete }

  predicate Fails(l: Local) { l.hand.Entered? && (l.hand.error || l.c.deferred) }

  predicate Blocked(c: Client) { c.wire && c.responseSent }

  predicate Dispatches(l: Local) { l.hand.Entered? && !Fails(l) && l.hand.prepared && !l.c.closing }

  predicate Enabled(l: Local, a: Action) {
    var c := l.c;
    match a
    case Headers(_, _) => Reads(l) && c.charge == 0
    case SubmitJob => Reads(l)
    case SubmitDirect => Reads(l) && c.charge == 0
    case BadRequest => Reads(l)
    case Enter => l.hand.Nothing? && c.alive
    case FailWait => Fails(l) && Blocked(c)
    case FailReply => Fails(l) && !Blocked(c)
    case FailDrop => Fails(l) && !Blocked(c) && c.responseSent
    case FailAgain => Fails(l) && !Blocked(c)
    case Answer => Dispatches(l)
    case Refuse => Dispatches(l)
    case Admit => Dispatches(l)
    case Pass => l.hand.Entered? && !Fails(l) && !Dispatches(l)
    case Take => l.hand.Checked?
    case Push(_, _, _) => l.hand.Taken? && l.hand.tokens != []
    case NotifyStop => l.hand.Pushed? && l.hand.stopMatched
    case Respond(_, _) => l.hand == Taken([], true) || l.hand == Pushed(true, false)
    case Settle => l.hand == Taken([], false) || l.hand == Pushed(false, false)
    case Write(_) => l.hand.Nothing? && c.alive && c.wire
    case Drop => l.hand.Nothing? && c.alive
    case WorkDone(_) => c.workerActive
    case _ => true
  }

  // Steps by where they happen.
  predicate Reading(a: Action) { a.Headers? || a.SubmitJob? || a.SubmitDirect? || a.BadRequest? || a.WorkDone? }
  predicate Failing(a: Action) { a.Enter? || a.FailWait? || a.FailReply? || a.FailDrop? || a.FailAgain? }
  predicate Dispatching(a: Action) { a.Answer? || a.Refuse? || a.Admit? || a.Pass? }
  predicate Delivering(a: Action) { a.Take? || a.Push? || a.NotifyStop? }
  predicate Ending(a: Action) { a.Respond? || a.Settle? || a.Write? || a.Drop? }

  function ActReading(l: Local, a: Action): Local
    requires Enabled(l, a) && Reading(a)
  {
    var c := l.c;
    match a
    case Headers(length, room) => 
      var full := c.alive && !room;
      l.(c := c.(charge := if room then length else c.charge, requestComplete := c.requestComplete || !room,
                 error := c.error || full, terminal := c.terminal || full))
    case SubmitJob => l.(c := c.(requestComplete := true, workerActive := true))
    case SubmitDirect => l.(c := c.(requestComplete := true, prepared := true))
    case BadRequest => l.(c :=
        c.(requestComplete := true, error := c.error || c.alive, terminal := c.terminal || c.alive))
    case WorkDone(parsed) =>
      var wanted := c.alive && !c.terminal && !c.error;
      l.(c := c.(charge := 0, workerActive := false, prepared := if wanted then parsed else c.prepared,
                 error := c.error || (wanted && !parsed), terminal := c.terminal || (wanted && !parsed)))
  }

  function ActFailing(l: Local, a: Action): Local
    requires Enabled(l, a) && Failing(a)
  {
    var c := l.c;
    match a
    case Enter => Local(c.(error := false, prepared := false), Entered(c.error, c.prepared))
    case FailWait => Local(c.(deferred := true), Nothing)
    case FailReply => Local(c.(deferred := false, wire := true, closing := true, success := false), Nothing)
    case FailDrop => Local(Disconnected(c, false), Nothing)
    case FailAgain => Local(c.(deferred := true, wire := false, error := c.error || c.alive, terminal := c.terminal
        || c.alive), Nothing)
  }

  function ActDispatching(l: Local, a: Action): Local
    requires Enabled(l, a) && Dispatching(a)
  {
    var c := l.c;
    match a
    case Answer => Local(c.(wire := true, closing := true, success := true), Nothing)
    case Refuse => Local(c.(error := c.error || c.alive, terminal := c.terminal || c.alive), Nothing)
    case Admit => Local(c.(admitted := true, admissionPending := true), if c.wire then Nothing else Checked)
    case Pass => Local(c, if c.wire || c.closing then Nothing else Checked)
  }

  function ActDelivering(l: Local, a: Action): Local
    requires Enabled(l, a) && Delivering(a)
  {
    var c := l.c;
    match a
    case Take => Local(c.(tokens := [], result := false), Taken(c.tokens, c.result))
    case Push(ok, streams, stops) =>
      if ok then Local(c.(wire := c.wire || streams, pushed := c.pushed + [l.hand.tokens]),
          Pushed(l.hand.result, stops))
      else Local(c.(wire := c.wire || streams, broken := true, error := c.error || c.alive, terminal := c.terminal
          || c.alive), Nothing)
    case NotifyStop =>
      Local(c.(stopNotified := c.stopNotified || Stops(l, a), stopPending := c.stopPending || Stops(l, a)),
          l.hand.(stopMatched := false))
  }

  function ActEnding(l: Local, a: Action): Local
    requires Enabled(l, a) && Ending(a)
  {
    var c := l.c;
    match a
    case Respond(ok, starts) =>
      if ok then Local(c.(wire := true, closing := true, success := true, replied := true), Nothing)
      else Local(c.(wire := c.wire || starts, error := c.error || c.alive, terminal := c.terminal || c.alive), Nothing)
    case Settle =>
      var frees := !c.wire && Frees(c);
      Local(c.(reserved := c.reserved && !frees, occupied := c.occupied && !frees), Nothing)
    case Write(full) =>
      if Leaves(l, a) then l.(c := Disconnected(c, true))
      else
        var frees := full && Frees(c);
        l.(c := c.(responseSent := true, wire := !full, reserved := c.reserved && !frees, occupied := c.occupied
            && !frees))
    case Drop => l.(c := Disconnected(c, false))
  }

  function ActOfOwner(l: Local, a: Action): Local
    requires Enabled(l, a) && OfOwner(a)
  {
    var c := l.c;
    match a
    case Ready => l.(c := c.(reserved := c.reserved || IsReady(c)))
    case Emit(burst) => 
      var taken := c.alive && Accepts(c) && burst != [];
      l.(c := c.(tokens := if taken then burst else c.tokens, occupied := c.occupied || taken,
                 emitted := if taken then c.emitted + [burst] else c.emitted))
    case Finish => 
      var ends := c.alive && !c.terminal;
      l.(c := c.(reserved := c.reserved || ends, occupied := c.occupied || ends, terminal := c.terminal
          || ends, result := c.result || ends))
    case Reject => l.(c := c.(error := c.error || c.alive, terminal := c.terminal || c.alive))
  }

  /** One step. */
  function Act(l: Local, a: Action): Local
    requires Enabled(l, a)
  {
    if Reading(a) then ActReading(l, a)
    else if Failing(a) then ActFailing(l, a)
    else if Dispatching(a) then ActDispatching(l, a)
    else if Delivering(a) then ActDelivering(l, a)
    else if Ending(a) then ActEnding(l, a)
    else ActOfOwner(l, a)
  }

  /** The steps that disconnect the client. */
  predicate Leaves(l: Local, a: Action) {
    a.FailDrop? || a.Drop? || (a.Write? && a.full && l.c.closing && !l.c.deferred)
  }

  /** The steps that queue a stop notice. */
  predicate Stops(l: Local, a: Action) { a.NotifyStop? && !l.c.stopNotified && !l.c.terminal }

  // ------------------------------------------------------------------ the invariant

  predicate HoldsPrepared(h: Hand) { h.Entered? && h.prepared }
  predicate HoldsError(h: Hand) { h.Entered? && h.error }
  predicate HoldsBurst(h: Hand) { h.Taken? && h.tokens != [] }
  predicate HoldsResult(h: Hand) { (h.Taken? && h.result) || (h.Pushed? && h.result) }
  predicate Past(h: Hand) { h.Checked? || h.Taken? || h.Pushed? }

  /** Bursts accepted and not yet handed to the output. */
  function Waiting(l: Local): seq<Burst> {
    (if HoldsBurst(l.hand) then [l.hand.tokens] else []) + (if l.c.tokens != [] then [l.c.tokens] else [])
  }

  predicate Preparation(l: Local) {
    var c := l.c;
    && (!l.hand.Nothing? ==> c.alive)
    && (c.workerActive ==> c.requestComplete && !c.admitted && !c.prepared && !HoldsPrepared(l.hand))
    && (c.prepared ==> c.requestComplete && !c.admitted && !HoldsPrepared(l.hand))
    && (HoldsPrepared(l.hand) ==> c.requestComplete && !c.admitted)
    && (c.admitted ==> c.requestComplete)
    && (!c.alive && !c.workerActive ==> c.charge == 0)
  }

  predicate Ends(l: Local) {
    var c := l.c;
    && (c.error || c.deferred || HoldsError(l.hand) || c.replied ==> c.terminal)
    && (c.result || HoldsResult(l.hand) ==> c.terminal)
    && (Past(l.hand) ==> !c.closing)
    && (c.success && c.admitted ==> c.replied)
    && (c.success || c.replied ==> c.closing)
    && (c.alive && c.broken ==> c.terminal && !Past(l.hand) && !c.replied)
    && (c.alive && c.broken ==> c.deferred || c.closing || HoldsError(l.hand) || (c.error && !l.hand.Entered?))
  }

  predicate Slot(l: Local) {
    var c := l.c;
    && (c.tokens != [] || HoldsBurst(l.hand) || l.hand.Pushed? ==> c.admitted && c.occupied)
    && (HoldsBurst(l.hand) || HoldsResult(l.hand) || c.replied ==> c.tokens == [])
    && (l.hand.Pushed? ==> c.tokens == [])
    && (c.broken ==> c.admitted)
  }

  predicate Bursts(l: Local) {
    var c := l.c;
    && c.pushed <= c.emitted
    && (c.alive && !c.broken ==> c.emitted == c.pushed + Waiting(l))
    && (c.replied ==> c.pushed == c.emitted)
  }

  predicate Notices(l: Local) {
    var c := l.c;
    && (c.alive ==> c.completions == 0 && c.cancellations == 0)
    && (!c.alive ==> c.completions + c.cancellations <= 1 && (c.admitted ==> c.completions + c.cancellations == 1))
    && (c.completions > 0 ==> c.admitted && c.replied)
    && (c.stopPending ==> c.stopNotified) && (c.admissionPending ==> c.admitted)
    && (c.completionPending ==> c.completions > 0) && (c.cancellationPending ==> c.cancellations > 0)
  }

  predicate Consistent(l: Local) { Preparation(l) && Ends(l) && Slot(l) && Bursts(l) && Notices(l) }

  /** History only grows, and what has ended stays ended. */
  predicate Grows(c: Client, d: Client) {
    && c.emitted <= d.emitted && c.pushed <= d.pushed && (d.alive ==> c.alive)
    && (c.admitted ==> d.admitted) && (c.terminal ==> d.terminal) && (c.broken ==> d.broken)
    && (c.replied ==> d.replied)
  }

  predicate Kept(l: Local, after: Local) { Consistent(after) && Grows(l.c, after.c) }

  lemma ReadingConsistent(l: Local, a: Action)
    requires Consistent(l) && Enabled(l, a) && Reading(a)
    ensures Kept(l, ActReading(l, a))
  {
    match a
    case Headers(length, room) => assert Kept(l, ActReading(l, Headers(length, room)));
    case SubmitJob => assert Kept(l, ActReading(l, SubmitJob));
    case SubmitDirect => assert Kept(l, ActReading(l, SubmitDirect));
    case BadRequest => assert Kept(l, ActReading(l, BadRequest));
    case WorkDone(parsed) => assert Kept(l, ActReading(l, WorkDone(parsed)));
  }

  lemma FailingConsistent(l: Local, a: Action)
    requires Consistent(l) && Enabled(l, a) && Failing(a)
    ensures Kept(l, ActFailing(l, a))
  {
    match a
    case Enter => assert Kept(l, ActFailing(l, Enter));
    case FailWait => assert Kept(l, ActFailing(l, FailWait));
    case FailReply => assert Kept(l, ActFailing(l, FailReply));
    case FailDrop => assert Kept(l, ActFailing(l, FailDrop));
    case FailAgain => assert Kept(l, ActFailing(l, FailAgain));
  }

  lemma DispatchingConsistent(l: Local, a: Action)
    requires Consistent(l) && Enabled(l, a) && Dispatching(a)
    ensures Kept(l, ActDispatching(l, a))
  {
    match a
    case Answer => assert Kept(l, ActDispatching(l, Answer));
    case Refuse => assert Kept(l, ActDispatching(l, Refuse));
    case Admit => assert Kept(l, ActDispatching(l, Admit));
    case Pass => assert Kept(l, ActDispatching(l, Pass));
  }

  lemma PushConsistent(l: Local, ok: bool, streams: bool, stops: bool)
    requires Consistent(l) && Enabled(l, Push(ok, streams, stops))
    ensures Kept(l, ActDelivering(l, Push(ok, streams, stops)))
  {
  }

  lemma DeliveringConsistent(l: Local, a: Action)
    requires Consistent(l) && Enabled(l, a) && Delivering(a)
    ensures Kept(l, ActDelivering(l, a))
  {
    match a
    case Take => assert Kept(l, ActDelivering(l, Take));
    case Push(ok, streams, stops) => PushConsistent(l, ok, streams, stops);
    case NotifyStop => assert Kept(l, ActDelivering(l, NotifyStop));
  }

  lemma SettleConsistent(l: Local)
    requires Consistent(l) && Enabled(l, Settle)
    ensures Kept(l, ActEnding(l, Settle))
  {
  }

  lemma WriteLastConsistent(l: Local)
    requires Consistent(l) && Enabled(l, Write(true)) && Leaves(l, Write(true))
    ensures Kept(l, ActEnding(l, Write(true)))
  {
  }

  lemma WriteMoreConsistent(l: Local, full: bool)
    requires Consistent(l) && Enabled(l, Write(full)) && !Leaves(l, Write(full))
    ensures Kept(l, ActEnding(l, Write(full)))
  {
  }

  lemma WriteConsistent(l: Local, full: bool)
    requires Consistent(l) && Enabled(l, Write(full))
    ensures Kept(l, ActEnding(l, Write(full)))
  {
    if Leaves(l, Write(full)) { WriteLastConsistent(l); } else { WriteMoreConsistent(l, full); }
  }

  lemma RespondConsistent(l: Local, ok: bool, starts: bool)
    requires Consistent(l) && Enabled(l, Respond(ok, starts))
    ensures Kept(l, ActEnding(l, Respond(ok, starts)))
  {
  }

  lemma DropConsistent(l: Local)
    requires Consistent(l) && Enabled(l, Drop)
    ensures Kept(l, ActEnding(l, Drop))
  {
  }

  lemma EndingConsistent(l: Local, a: Action)
    requires Consistent(l) && Enabled(l, a) && Ending(a)
    ensures Kept(l, ActEnding(l, a))
  {
    match a
    case Respond(ok, starts) => RespondConsistent(l, ok, starts);
    case Settle => SettleConsistent(l);
    case Write(full) => WriteConsistent(l, full);
    case Drop => DropConsistent(l);
  }

  lemma OfOwnerConsistent(l: Local, a: Action)
    requires Consistent(l) && Enabled(l, a) && OfOwner(a)
    ensures Kept(l, ActOfOwner(l, a))
  {
    match a
    case Ready => assert Kept(l, ActOfOwner(l, Ready));
    case Emit(burst) => assert Kept(l, ActOfOwner(l, Emit(burst)));
    case Finish => assert Kept(l, ActOfOwner(l, Finish));
    case Reject => assert Kept(l, ActOfOwner(l, Reject));
  }

  /** Every step of every party keeps the flags consistent. */
  lemma ActConsistent(l: Local, a: Action)
    requires Consistent(l) && Enabled(l, a)
    ensures Kept(l, Act(l, a))
  {
    if Reading(a) { ReadingConsistent(l, a); }
    else if Failing(a) { FailingConsistent(l, a); }
    else if Dispatching(a) { DispatchingConsistent(l, a); }
    else if Delivering(a) { DeliveringConsistent(l, a); }
    else if Ending(a) { EndingConsistent(l, a); }
    else { OfOwnerConsistent(l, a); }
  }

  /** What holds from a true `ready` until the `emit` that follows. */
  predicate WillAccept(c: Client) { c.alive ==> Accepts(c) }

  lemma ReadyThenEmit(l: Local)
    requires Consistent(l) && IsReady(l.c)
    ensures WillAccept(Act(l, Ready).c)
  {
  }

  /** Nothing the I/O thread or the workers do can take the reservation from a living client. */
  lemma ReadyStays(l: Local, a: Action)
    requires Consistent(l) && WillAccept(l.c) && Enabled(l, a) && !OfOwner(a)
    ensures WillAccept(Act(l, a).c)
  {
  }

  /** What `emit` does to a client in that state. */
  lemma EmitAccepted(l: Local, burst: Burst)
    requires Consistent(l) && WillAccept(l.c) && burst != []
    ensures !l.c.alive ==> Act(l, Emit(burst)) == l
    ensures l.c.alive ==> Act(l, Emit(burst)).c.emitted == l.c.emitted + [burst]
    ensures l.c.alive ==> Act(l, Emit(burst)).c.tokens == burst
  {
  }

  // ---------------------------------------------------------------- the whole server

  /** What the GPU owner collects: new requests, and three kinds of notice. */
  datatype Kind = Admissions | Cancellations | Completions | Stoppings

  /** One list of clients for each kind. */
  datatype Boxes = Boxes(admissions: seq<Id>, cancellations: seq<Id>, completions: seq<Id>, stops: seq<Id>)

  const Empty := Boxes([], [], [], [])

  function Box(b: Boxes, k: Kind): seq<Id> {
    match k case Admissions => b.admissions case Cancellations => b.cancellations case Completions =>
        b.completions case Stoppings => b.stops
  }

  function WithBox(b: Boxes, k: Kind, q: seq<Id>): Boxes {
    match k
    case Admissions => b.(admissions := q)
    case Cancellations => b.(cancellations := q)
    case Completions => b.(completions := q)
    case Stoppings => b.(stops := q)
  }

  /** The client's own flag for the queue it waits in. */
  predicate Flag(c: Client, k: Kind) {
    match k
    case Admissions => c.admissionPending
    case Cancellations => c.cancellationPending
    case Completions => c.completionPending
    case Stoppings => c.stopPending
  }

  function Clear(c: Client, k: Kind): Client {
    match k
    case Admissions => c.(admissionPending := false)
    case Cancellations => c.(cancellationPending := false)
    case Completions => c.(completionPending := false)
    case Stoppings => c.(stopPending := false)
  }

  /** How often the client has been queued in its whole life. */
  function Ever(c: Client, k: Kind): nat {
    match k
    case Admissions => if c.admitted then 1 else 0
    case Cancellations => c.cancellations
    case Completions => c.completions
    case Stoppings => if c.stopNotified then 1 else 0
  }

  /** Whether a step of a client queues it. */
  predicate Raises(l: Local, a: Action, k: Kind) {
    match k
    case Admissions => a.Admit?
    case Cancellations => Leaves(l, a) && l.c.alive && Cancels(l.c, a.Write?)
    case Completions => Leaves(l, a) && l.c.alive && Completes(l.c, a.Write?)
    case Stoppings => Stops(l, a)
  }

  datatype Io = Idle | Busy(id: Id, hand: Hand)

  /** The server. A client erased from the server's table stays here, as history, in `gone`; `told`
      is what the owner has been given. */
  datatype State = State(
    clients: map<Id, Client>, gone: set<Id>, io: Io, bodyBytes: int, leases: map<nat, nat>, media: nat,
    queues: Boxes, told: Boxes, nextId: nat)

  const Start := State(map[], {}, Idle, 0, map[], 0, Empty, Empty, 0)

  datatype Step =
    | Of(id: Id, action: Action) | Accept | Reap(gone: Id) | Lease(holder: Id, lease: nat, bytes: nat)
        | Return(lease: nat) | Collect(kind: Kind)

  function HandOn(io: Io, id: Id): Hand { if io.Busy? && io.id == id then io.hand else Nothing }

  function LocalAt(s: State, id: Id): Local
    requires id in s.clients
  {
    Local(s.clients[id], HandOn(s.io, id))
  }

  predicate Forgotten(c: Client) {
    !c.alive && !c.workerActive && !c.admissionPending && !c.cancellationPending && !c.completionPending
        && !c.stopPending
  }

  predicate CanAct(s: State, id: Id, a: Action, total: nat) {
    && id in s.clients && Enabled(LocalAt(s, id), a)
    && (OfIo(a) ==> s.io.Idle? || s.io.id == id)
    && (a.Headers? ==> a.room == (a.length <= total - s.bodyBytes - s.media))
  }

  predicate Can(s: State, step: Step, total: nat) {
    match step
    case Of(id, a) => CanAct(s, id, a, total)
    case Reap(id) => id in s.clients && id !in s.gone && Forgotten(s.clients[id])
    case Lease(id, lease, bytes) =>
      && id in s.clients && s.clients[id].workerActive && s.clients[id].alive && !s.clients[id].terminal
      && !s.clients[id].error
      && lease !in s.leases && bytes <= total - s.bodyBytes - s.media
    case Return(lease) => lease in s.leases && s.leases[lease] <= s.media
    case _ => true
  }

  /** The body bytes accounted after a step of one client. */
  function BodyAfter(bytes: int, l: Local, a: Action): int {
    if a.Headers? && a.room then bytes + a.length
    else if a.WorkDone? || (Leaves(l, a) && l.c.alive && !l.c.workerActive) then bytes - l.c.charge
    else bytes
  }

  function Queued(q: Boxes, l: Local, a: Action, id: Id): Boxes {
    Boxes(if Raises(l, a, Admissions) then q.admissions + [id] else q.admissions,
          if Raises(l, a, Cancellations) then q.cancellations + [id] else q.cancellations,
          if Raises(l, a, Completions) then q.completions + [id] else q.completions,
          if Raises(l, a, Stoppings) then q.stops + [id] else q.stops)
  }

  /** The server once a step of one client has taken it to `after`. */
  function Placed(s: State, id: Id, a: Action, after: Local): State
    requires id in s.clients
  {
    var l := LocalAt(s, id);
    s.(clients := s.clients[id := after.c],
       io := if !OfIo(a) then s.io else if after.hand.Nothing? then Idle else Busy(id, after.hand),
       bodyBytes := BodyAfter(s.bodyBytes, l, a),
       queues := Queued(s.queues, l, a, id))
  }

  /** Admissions are handed over for living clients only, stops for those not ended. */
  predicate Wanted(clients: map<Id, Client>, id: Id, k: Kind) {
    id in clients && (k.Admissions? || k.Stoppings? ==> clients[id].alive) && (k.Stoppings? ==> !clients[id].terminal)
  }

  function Delivered(q: seq<Id>, clients: map<Id, Client>, k: Kind): (r: seq<Id>) {
    if q == [] then [] else (if Wanted(clients, q[0], k) then [q[0]] else []) + Delivered(q[1..], clients, k)
  }

  function Cleared(clients: map<Id, Client>, q: seq<Id>, k: Kind): map<Id, Client> {
    map id | id in clients :: if id in q then Clear(clients[id], k) else clients[id]
  }

  function Accepted(s: State): State {
    s.(clients := s.clients[s.nextId + 1 := Connected], nextId := s.nextId + 1)
  }

  function Collected(s: State, k: Kind): State {
    var q := Box(s.queues, k);
    s.(clients := Cleared(s.clients, q, k), queues := WithBox(s.queues, k, []),
       told := WithBox(s.told, k, Box(s.told, k) + Delivered(q, s.clients, k)))
  }

  function Do(s: State, step: Step, total: nat): State
    requires Can(s, step, total)
  {
    match step
    case Of(id, a) => Placed(s, id, a, Act(LocalAt(s, id), a))
    case Accept => Accepted(s)
    case Reap(id) => s.(gone := s.gone + {id})
    case Lease(_, lease, bytes) => s.(leases := s.leases[lease := bytes], media := s.media + bytes)
    case Return(lease) => s.(leases := s.leases - {lease}, media := s.media - s.leases[lease])
    case Collect(k) => Collected(s, k)
  }

  // -------------------------------------------------------------- what every run keeps

  function Times(q: seq<Id>, id: Id): nat { multiset(q)[id] }

  function Charge(c: Client): nat { c.charge }

  predicate Notice(k: Kind) { k.Cancellations? || k.Completions? }

  predicate CountedAt(s: State, id: Id, k: Kind) {
    var waiting := Times(Box(s.queues, k), id);
    var told := Times(Box(s.told, k), id);
    if id in s.clients then
      && waiting == (if Flag(s.clients[id], k) then 1 else 0)
      && told + waiting <= Ever(s.clients[id], k)
      && (Notice(k) ==> told + waiting == Ever(s.clients[id], k))
    else waiting == 0 && told == 0
  }

  predicate ClientAt(s: State, id: Id)
    requires id in s.clients
  {
    Consistent(LocalAt(s, id)) && id <= s.nextId
  }

  ghost predicate Counted(s: State) { forall id: Id, k: Kind :: CountedAt(s, id, k) }
  ghost predicate ClientsGood(s: State) { forall id :: id in s.clients ==> ClientAt(s, id) }
  ghost predicate GoneGood(s: State) { forall id :: id in s.gone ==> id in s.clients && Forgotten(s.clients[id]) }
  predicate IoGood(s: State) { s.io.Busy? ==> s.io.id in s.clients && !s.io.hand.Nothing? }

  /** Body bytes are the sum of the charges, and with the leased media never exceed the total. */
  ghost predicate BytesGood(s: State, total: nat) {
    s.bodyBytes == Sum(s.clients, Charge) && s.media == Total(s.leases) && s.bodyBytes + s.media <= total
  }

  ghost predicate Good(s: State, total: nat) {
    IoGood(s) && ClientsGood(s) && GoneGood(s) && Counted(s) && BytesGood(s, total)
  }

  lemma ActHand(l: Local, a: Action)
    requires Enabled(l, a) && !OfIo(a)
    ensures Act(l, a).hand == l.hand
  {
  }

  // ------------------------------------------------------- one client's account in the server

  predicate Quiet(a: Action) {
    !a.Headers? && !a.WorkDone? && !a.FailDrop? && !a.Drop? && !a.Write? && !a.Admit? && !a.NotifyStop?
  }

  /** Nothing the server counts of the client has changed. */
  predicate SameAccount(c: Client, d: Client) {
    && c.charge == d.charge && c.admitted == d.admitted && c.stopNotified == d.stopNotified
    && c.completions == d.completions && c.cancellations == d.cancellations
    && c.admissionPending == d.admissionPending && c.stopPending == d.stopPending
    && c.completionPending == d.completionPending && c.cancellationPending == d.cancellationPending
  }

  lemma ReadingQuiet(l: Local, a: Action)
    requires Enabled(l, a) && Reading(a) && Quiet(a)
    ensures SameAccount(l.c, ActReading(l, a).c)
  {
    match a
    case SubmitJob => assert SameAccount(l.c, ActReading(l, SubmitJob).c);
    case SubmitDirect => assert SameAccount(l.c, ActReading(l, SubmitDirect).c);
    case BadRequest => assert SameAccount(l.c, ActReading(l, BadRequest).c);
  }

  lemma FailingQuiet(l: Local, a: Action)
    requires Enabled(l, a) && Failing(a) && Quiet(a)
    ensures SameAccount(l.c, ActFailing(l, a).c)
  {
    match a
    case Enter => assert SameAccount(l.c, ActFailing(l, Enter).c);
    case FailWait => assert SameAccount(l.c, ActFailing(l, FailWait).c);
    case FailReply => assert SameAccount(l.c, ActFailing(l, FailReply).c);
    case FailAgain => assert SameAccount(l.c, ActFailing(l, FailAgain).c);
  }

  lemma DispatchingQuiet(l: Local, a: Action)
    requires Enabled(l, a) && Dispatching(a) && Quiet(a)
    ensures SameAccount(l.c, ActDispatching(l, a).c)
  {
    match a
    case Answer => assert SameAccount(l.c, ActDispatching(l, Answer).c);
    case Refuse => assert SameAccount(l.c, ActDispatching(l, Refuse).c);
    case Pass => assert SameAccount(l.c, ActDispatching(l, Pass).c);
  }

  lemma DeliveringQuiet(l: Local, a: Action)
    requires Enabled(l, a) && Delivering(a) && Quiet(a)
    ensures SameAccount(l.c, ActDelivering(l, a).c)
  {
    match a
    case Take => assert SameAccount(l.c, ActDelivering(l, Take).c);
    case Push(ok, streams, stops) => assert SameAccount(l.c, ActDelivering(l, Push(ok, streams, stops)).c);
  }

  lemma EndingQuiet(l: Local, a: Action)
    requires Enabled(l, a) && Ending(a) && Quiet(a)
    ensures SameAccount(l.c, ActEnding(l, a).c)
  {
    match a
    case Respond(ok, starts) => assert SameAccount(l.c, ActEnding(l, Respond(ok, starts)).c);
    case Settle => assert SameAccount(l.c, ActEnding(l, Settle).c);
  }

  lemma OfOwnerQuiet(l: Local, a: Action)
    requires Enabled(l, a) && OfOwner(a) && Quiet(a)
    ensures SameAccount(l.c, ActOfOwner(l, a).c)
  {
    match a
    case Ready => assert SameAccount(l.c, ActOfOwner(l, Ready).c);
    case Emit(burst) => assert SameAccount(l.c, ActOfOwner(l, Emit(burst)).c);
    case Finish => assert SameAccount(l.c, ActOfOwner(l, Finish).c);
    case Reject => assert SameAccount(l.c, ActOfOwner(l, Reject).c);
  }

  lemma ActQuiet(l: Local, a: Action)
    requires Enabled(l, a) && Quiet(a)
    ensures SameAccount(l.c, Act(l, a).c)
  {
    if Reading(a) { ReadingQuiet(l, a); }
    else if Failing(a) { FailingQuiet(l, a); }
    else if Dispatching(a) { DispatchingQuiet(l, a); }
    else if Delivering(a) { DeliveringQuiet(l, a); }
    else if Ending(a) { EndingQuiet(l, a); }
    else { OfOwnerQuiet(l, a); }
  }

  /** What changes in the account: the charge becomes `charge`, and the client is admitted, stopped,
      completed or cancelled. */
  predicate Moved(c: Client, d: Client, charge: nat, admits: bool, stops: bool, completes: bool, cancels: bool) {
    && d.charge == charge
    && d.admitted == (c.admitted || admits) && d.admissionPending == (c.admissionPending || admits)
    && d.stopNotified == (c.stopNotified || stops) && d.stopPending == (c.stopPending || stops)
    && d.completionPending == (c.completionPending || completes)
    && d.cancellationPending == (c.cancellationPending || cancels)
    && d.completions == c.completions + (if completes then 1 else 0)
    && d.cancellations == c.cancellations + (if cancels then 1 else 0)
  }

  lemma SameMoved(c: Client, d: Client)
    requires SameAccount(c, d)
    ensures Moved(c, d, c.charge, false, false, false, false)
  {
  }

  predicate Completing(l: Local, a: Action) { Leaves(l, a) && l.c.alive && Completes(l.c, a.Write?) }
  predicate Cancelling(l: Local, a: Action) { Leaves(l, a) && l.c.alive && Cancels(l.c, a.Write?) }

  /** The client's charge after a step. */
  function ChargeAfter(l: Local, a: Action): nat {
    if a.Headers? && a.room then a.length
    else if a.WorkDone? || (Leaves(l, a) && l.c.alive && !l.c.workerActive) then 0
    else l.c.charge
  }

  /** What any step does to the account. */
  predicate Account(l: Local, a: Action, d: Client) {
    Moved(l.c, d, ChargeAfter(l, a), a.Admit?, Stops(l, a), Completing(l, a), Cancelling(l, a))
  }

  lemma QuietAccount(l: Local, a: Action)
    requires Enabled(l, a) && Quiet(a)
    ensures Account(l, a, Act(l, a).c)
  {
    var d := Act(l, a).c;
    ActQuiet(l, a);
    SameMoved(l.c, d);
  }

  lemma DisconnectedAccount(c: Client, delivered: bool)
    requires c.alive
    ensures Moved(c, Disconnected(c, delivered), if c.workerActive then c.charge else 0, false, false,
      Completes(c, delivered), Cancels(c, delivered))
  {
  }

  lemma LeavingAccount(l: Local, a: Action)
    requires Enabled(l, a) && Leaves(l, a) && l.c.alive
    ensures Account(l, a, Act(l, a).c)
  {
    match a
    case FailDrop =>
      assert Act(l, FailDrop).c == Disconnected(l.c, false);
      DisconnectedAccount(l.c, false);
    case Drop =>
      assert Act(l, Drop).c == Disconnected(l.c, false);
      DisconnectedAccount(l.c, false);
    case Write(full) =>
      assert Act(l, Write(true)).c == Disconnected(l.c, true);
      DisconnectedAccount(l.c, true);
  }

  lemma WritingAccount(l: Local, full: bool)
    requires Enabled(l, Write(full)) && !Leaves(l, Write(full))
    ensures Account(l, Write(full), Act(l, Write(full)).c)
  {
    assert SameAccount(l.c, ActEnding(l, Write(full)).c);
    SameMoved(l.c, Act(l, Write(full)).c);
  }

  /** The other steps the server counts: bytes charged and discharged, an admission, a stop. */
  lemma HeadersAccount(l: Local, length: nat, room: bool)
    requires Enabled(l, Headers(length, room))
    ensures Account(l, Headers(length, room), Act(l, Headers(length, room)).c)
  {
    assert Account(l, Headers(length, room), ActReading(l, Headers(length, room)).c);
  }

  lemma WorkDoneAccount(l: Local, parsed: bool)
    requires Enabled(l, WorkDone(parsed))
    ensures Account(l, WorkDone(parsed), Act(l, WorkDone(parsed)).c)
  {
    assert Account(l, WorkDone(parsed), ActReading(l, WorkDone(parsed)).c);
  }

  lemma AdmitAccount(l: Local)
    requires Enabled(l, Admit)
    ensures Account(l, Admit, Act(l, Admit).c)
  {
    assert Account(l, Admit, ActDispatching(l, Admit).c);
  }

  lemma NotifyAccount(l: Local)
    requires Enabled(l, NotifyStop)
    ensures Account(l, NotifyStop, Act(l, NotifyStop).c)
  {
    assert Account(l, NotifyStop, ActDelivering(l, NotifyStop).c);
  }

  lemma ActAccount(l: Local, a: Action)
    requires Enabled(l, a) && (Leaves(l, a) ==> l.c.alive)
    ensures Account(l, a, Act(l, a).c)
  {
    if Leaves(l, a) { LeavingAccount(l, a); }
    else if Quiet(a) { QuietAccount(l, a); }
    else {
      match a
      case Write(full) => WritingAccount(l, full);
      case Headers(length, room) => HeadersAccount(l, length, room);
      case WorkDone(parsed) => WorkDoneAccount(l, parsed);
      case Admit => AdmitAccount(l);
      case NotifyStop => NotifyAccount(l);
    }
  }

  /** Whether a step queues the client exactly when it raises the flag, once. */
  predicate Raised(c: Client, d: Client, k: Kind, raises: bool) {
    if raises then !Flag(c, k) && Flag(d, k) && Ever(d, k) == Ever(c, k) + 1
    else Flag(d, k) == Flag(c, k) && Ever(d, k) == Ever(c, k)
  }

  predicate OfKind(k: Kind, admits: bool, stops: bool, completes: bool, cancels: bool) {
    match k
    case Admissions => admits
    case Cancellations => cancels
    case Completions => completes
    case Stoppings => stops
  }

  /** A change that finds no flag up raises exactly its own. */
  lemma MovedRaised(c: Client, d: Client, charge: nat, admits: bool, stops: bool, completes: bool, cancels: bool,
      k: Kind)
    requires Moved(c, d, charge, admits, stops, completes, cancels)
    requires (admits ==> !c.admitted && !c.admissionPending) && (stops ==> !c.stopNotified && !c.stopPending)
    requires (completes ==> !c.completionPending) && (cancels ==> !c.cancellationPending)
    ensures Raised(c, d, k, OfKind(k, admits, stops, completes, cancels))
  {
  }

  /** What a step raises was not up before. */
  lemma NothingUp(l: Local, a: Action)
    requires Preparation(l) && Notices(l) && Enabled(l, a)
    ensures a.Admit? ==> !l.c.admitted && !l.c.admissionPending
    ensures Stops(l, a) ==> !l.c.stopNotified && !l.c.stopPending
    ensures (Completing(l, a) ==> !l.c.completionPending) && (Cancelling(l, a) ==> !l.c.cancellationPending)
  {
  }

  lemma AccountRaised(l: Local, a: Action, d: Client, k: Kind)
    requires Preparation(l) && Notices(l) && Enabled(l, a) && Account(l, a, d)
    ensures Raised(l.c, d, k, Raises(l, a, k))
  {
    NothingUp(l, a);
    MovedRaised(l.c, d, ChargeAfter(l, a), a.Admit?, Stops(l, a), Completing(l, a), Cancelling(l, a), k);
    RaisesIs(l, a, k);
  }

  lemma RaisesIs(l: Local, a: Action, k: Kind)
    ensures Raises(l, a, k) == OfKind(k, a.Admit?, Stops(l, a), Completing(l, a), Cancelling(l, a))
  {
  }

  /** The bytes accounted follow the client's own charge. */
  lemma AccountCharged(l: Local, a: Action, d: Client, bytes: int)
    requires (a.Headers? ==> l.c.charge == 0) && Account(l, a, d)
    ensures BodyAfter(bytes, l, a) - d.charge == bytes - l.c.charge
  {
    ChargeFollows(l, a, bytes);
  }

  lemma ChargeFollows(l: Local, a: Action, bytes: int)
    requires a.Headers? ==> l.c.charge == 0
    ensures BodyAfter(bytes, l, a) - ChargeAfter(l, a) == bytes - l.c.charge
  {
  }

  lemma ForgottenStays(l: Local, a: Action)
    requires Consistent(l) && Enabled(l, a) && Forgotten(l.c)
    ensures OfOwner(a) && Act(l, a) == l
  {
  }

  // ------------------------------------------------------------ steps of the whole server

  lemma TimesAppend(p: seq<Id>, q: seq<Id>, id: Id)
    ensures Times(p + q, id) == Times(p, id) + Times(q, id)
  {
  }

  lemma TimesQueued(q: Boxes, l: Local, a: Action, id: Id, other: Id, k: Kind)
    ensures Times(Box(Queued(q, l, a, id), k), other) == Times(Box(q, k), other) + if other == id
      && Raises(l, a, k) then 1 else 0
  {
    TimesAppend(Box(q, k), [id], other);
    assert Times([id], other) == if other == id then 1 else 0;
  }

  /** What the lemmas on one client say of a step. */
  predicate Sound(l: Local, a: Action, after: Local) {
    Kept(l, after) && Account(l, a, after.c) && (!OfIo(a) ==> after.hand == l.hand)
  }

  lemma ActSound(l: Local, a: Action)
    requires Consistent(l) && Enabled(l, a)
    ensures Sound(l, a, Act(l, a))
  {
    ActConsistent(l, a);
    ActAccount(l, a);
    if !OfIo(a) { ActHand(l, a); }
  }

  lemma PlacedClients(s: State, id: Id, a: Action, after: Local)
    requires IoGood(s) && ClientsGood(s) && id in s.clients && (OfIo(a) ==> s.io.Idle? || s.io.id == id)
    requires Sound(LocalAt(s, id), a, after)
    ensures IoGood(Placed(s, id, a, after)) && ClientsGood(Placed(s, id, a, after))
  {
    var t := Placed(s, id, a, after);
    assert ClientAt(s, id);
    forall other | other in t.clients ensures ClientAt(t, other) {
      assert ClientAt(s, other);
      assert LocalAt(t, other) == if other == id then after else LocalAt(s, other);
    }
  }

  lemma PlacedCountedAt(s: State, id: Id, a: Action, after: Local, other: Id, k: Kind)
    requires id in s.clients && CountedAt(s, other, k)
    requires other == id ==> Raised(s.clients[id], after.c, k, Raises(LocalAt(s, id), a, k))
    ensures CountedAt(Placed(s, id, a, after), other, k)
  {
    TimesQueued(s.queues, LocalAt(s, id), a, id, other, k);
  }

  lemma PlacedCounted(s: State, id: Id, a: Action, after: Local)
    requires ClientsGood(s) && Counted(s) && id in s.clients && Enabled(LocalAt(s, id), a)
    requires Sound(LocalAt(s, id), a, after)
    ensures Counted(Placed(s, id, a, after))
  {
    assert ClientAt(s, id);
    forall other: Id, k: Kind ensures CountedAt(Placed(s, id, a, after), other, k) {
      assert CountedAt(s, other, k);
      if other == id { AccountRaised(LocalAt(s, id), a, after.c, k); }
      PlacedCountedAt(s, id, a, after, other, k);
    }
  }

  lemma ChargePut(clients: map<Id, Client>, id: Id, d: Client)
    requires id in clients
    ensures Sum(clients[id := d], Charge) - d.charge == Sum(clients, Charge) - clients[id].charge
  {
    SumPut(clients, Charge, id, d);
  }

  lemma PlacedBytes(s: State, id: Id, a: Action, after: Local, total: nat)
    requires ClientsGood(s) && BytesGood(s, total) && CanAct(s, id, a, total)
    requires Sound(LocalAt(s, id), a, after)
    ensures BytesGood(Placed(s, id, a, after), total)
  {
    AccountCharged(LocalAt(s, id), a, after.c, s.bodyBytes);
    ChargePut(s.clients, id, after.c);
    ChargeGrows(LocalAt(s, id), a, s.bodyBytes);
    PlacedBooks(s, id, a, after, total);
  }

  /** The sums of the two states, once the charge and the body bytes have moved together. */
  lemma PlacedBooks(s: State, id: Id, a: Action, after: Local, total: nat)
    requires BytesGood(s, total) && id in s.clients
    requires BodyAfter(s.bodyBytes, LocalAt(s, id), a) - after.c.charge == s.bodyBytes - s.clients[id].charge
    requires Sum(s.clients[id := after.c], Charge) - after.c.charge == Sum(s.clients, Charge) - s.clients[id].charge
    requires BodyAfter(s.bodyBytes, LocalAt(s, id), a) + s.media <= total
    ensures BytesGood(Placed(s, id, a, after), total)
  {
  }

  lemma ChargeGrows(l: Local, a: Action, bytes: int)
    ensures BodyAfter(bytes, l, a) <= bytes || (a.Headers? && a.room && BodyAfter(bytes, l, a) == bytes + a.length)
  {
  }

  lemma PlacedGood(s: State, id: Id, a: Action, after: Local, total: nat)
    requires Good(s, total) && CanAct(s, id, a, total) && Sound(LocalAt(s, id), a, after)
    requires Forgotten(s.clients[id]) ==> after.c == s.clients[id]
    ensures Good(Placed(s, id, a, after), total)
  {
    PlacedClients(s, id, a, after);
    PlacedCounted(s, id, a, after);
    PlacedBytes(s, id, a, after, total);
  }

  lemma OfGood(s: State, id: Id, a: Action, total: nat)
    requires Good(s, total) && CanAct(s, id, a, total)
    ensures Good(Placed(s, id, a, Act(LocalAt(s, id), a)), total)
  {
    assert ClientAt(s, id);
    ActSound(LocalAt(s, id), a);
    if Forgotten(s.clients[id]) { ForgottenStays(LocalAt(s, id), a); }
    PlacedGood(s, id, a, Act(LocalAt(s, id), a), total);
  }

  lemma AcceptClients(s: State)
    requires IoGood(s) && ClientsGood(s)
    ensures IoGood(Accepted(s)) && ClientsGood(Accepted(s)) && s.nextId + 1 !in s.clients
  {
    var t, id := Accepted(s), s.nextId + 1;
    forall other | other in s.clients ensures other < id { assert ClientAt(s, other); }
    forall other | other in t.clients ensures ClientAt(t, other) {
      if other != id { assert ClientAt(s, other); assert LocalAt(t, other) == LocalAt(s, other); }
    }
  }

  lemma AcceptCountedAt(s: State, id: Id, k: Kind)
    requires CountedAt(s, id, k) && s.nextId + 1 !in s.clients
    ensures CountedAt(Accepted(s), id, k)
  {
  }

  lemma AcceptBytes(s: State, total: nat)
    requires BytesGood(s, total) && s.nextId + 1 !in s.clients
    ensures BytesGood(Accepted(s), total)
  {
    var id: Id, t := s.nextId + 1, Accepted(s);
    SumPut(s.clients, Charge, id, Connected);
    assert Charge(Connected) == 0;
    assert t.clients == s.clients[id := Connected];
    assert Sum(t.clients, Charge) == Sum(s.clients, Charge);
    assert t.leases == s.leases;
  }

  lemma AcceptGood(s: State, total: nat)
    requires Good(s, total)
    ensures Good(Accepted(s), total)
  {
    AcceptClients(s);
    AcceptBytes(s, total);
    forall other: Id, k: Kind ensures CountedAt(Accepted(s), other, k) {
      assert CountedAt(s, other, k);
      AcceptCountedAt(s, other, k);
    }
  }

  lemma ReapGood(s: State, id: Id, total: nat)
    requires Good(s, total) && Can(s, Reap(id), total)
    ensures Good(Do(s, Reap(id), total), total)
  {
    var t := Do(s, Reap(id), total);
    forall other | other in t.clients ensures ClientAt(t, other) { assert ClientAt(s, other); }
    forall other: Id, k: Kind ensures CountedAt(t, other, k) { assert CountedAt(s, other, k); }
  }

  lemma LeaseGood(s: State, step: Step, total: nat)
    requires Good(s, total) && Can(s, step, total) && (step.Lease? || step.Return?)
    ensures Good(Do(s, step, total), total)
  {
    var t := Do(s, step, total);
    if step.Lease? { TotalInsert(s.leases, step.lease, step.bytes); } else { TotalRemove(s.leases, step.lease); }
    forall other | other in t.clients ensures ClientAt(t, other) { assert ClientAt(s, other); }
    forall other: Id, k: Kind ensures CountedAt(t, other, k) { assert CountedAt(s, other, k); }
  }

  /** Handing a queue over loses no notice, and invents nothing. */
  lemma {:induction false} TimesDelivered(q: seq<Id>, clients: map<Id, Client>, k: Kind, id: Id)
    ensures Times(Delivered(q, clients, k), id) <= Times(q, id)
    ensures Notice(k) && (forall i :: 0 <= i < |q| ==> q[i] in clients) ==>
      Times(Delivered(q, clients, k), id) == Times(q, id)
  {
    if q != [] {
      TimesDelivered(q[1..], clients, k, id);
      assert q == [q[0]] + q[1..];
      TimesAppend([q[0]], q[1..], id);
      TimesAppend(if Wanted(clients, q[0], k) then [q[0]] else [], Delivered(q[1..], clients, k), id);
    }
  }

  lemma ClearConsistent(l: Local, k: Kind)
    requires Consistent(l)
    ensures Consistent(l.(c := Clear(l.c, k)))
  {
  }

  lemma ClearForgotten(c: Client, k: Kind)
    requires Forgotten(c)
    ensures Forgotten(Clear(c, k))
  {
  }

  lemma ClearOccupancy(l: Local, k: Kind)
    requires Occupancy(l)
    ensures Occupancy(l.(c := Clear(l.c, k)))
  {
  }

  lemma ClearFlags(c: Client, k: Kind, other: Kind)
    ensures Flag(Clear(c, k), other) == (k != other && Flag(c, other)) && Ever(Clear(c, k), other) == Ever(c, other)
  {
  }

  lemma WithBoxes(b: Boxes, k: Kind, q: seq<Id>, other: Kind)
    ensures Box(WithBox(b, k, q), other) == if other == k then q else Box(b, other)
  {
  }

  lemma CollectTimes(s: State, k: Kind, id: Id)
    requires Counted(s)
    ensures Times(Box(Collected(s, k).queues, k), id) == 0
    ensures Times(Box(Collected(s, k).told, k), id) <= Times(Box(s.told, k), id) + Times(Box(s.queues, k), id)
    ensures Notice(k) ==> Times(Box(Collected(s, k).told, k), id) == Times(Box(s.told, k), id) + Times(Box(s.queues,
      k), id)
  {
    var q := Box(s.queues, k);
    forall i | 0 <= i < |q| ensures q[i] in s.clients { assert CountedAt(s, q[i], k); }
    TimesDelivered(q, s.clients, k, id);
    TimesAppend(Box(s.told, k), Delivered(q, s.clients, k), id);
    WithBoxes(s.queues, k, [], k);
    WithBoxes(s.told, k, Box(s.told, k) + Delivered(q, s.clients, k), k);
  }

  /** A waiting client loses its flag for the queue handed over; the others had none. */
  lemma CollectFlags(s: State, k: Kind, id: Id)
    requires id in s.clients && CountedAt(s, id, k)
    ensures !Flag(Collected(s, k).clients[id], k) && Ever(Collected(s, k).clients[id], k) == Ever(s.clients[id], k)
  {
    var c, q := s.clients[id], Box(s.queues, k);
    assert Collected(s, k).clients[id] == if id in q then Clear(c, k) else c;
    ClearFlags(c, k, k);
    assert Flag(c, k) ==> id in q;
  }

  /** The queue handed over is empty, its flags are cleared, and what was in it has been told. */
  lemma CollectCountedSame(s: State, k: Kind, id: Id)
    requires Counted(s)
    ensures CountedAt(Collected(s, k), id, k)
  {
    assert CountedAt(s, id, k);
    CollectTimes(s, k, id);
    if id in s.clients { CollectFlags(s, k, id); }
  }

  lemma CollectCountedOther(s: State, k: Kind, id: Id, other: Kind)
    requires Counted(s) && other != k
    ensures CountedAt(Collected(s, k), id, other)
  {
    assert CountedAt(s, id, other);
    WithBoxes(s.queues, k, [], other);
    WithBoxes(s.told, k, Box(s.told, k) + Delivered(Box(s.queues, k), s.clients, k), other);
    if id in s.clients { ClearFlags(s.clients[id], k, other); }
  }

  /** Collecting clears the flag of those that wait, and touches nothing else of a client. */
  lemma CollectLocal(s: State, k: Kind, id: Id)
    requires id in s.clients
    ensures LocalAt(Collected(s, k), id) ==
      if id in Box(s.queues, k) then LocalAt(s, id).(c := Clear(s.clients[id], k)) else LocalAt(s, id)
  {
  }

  lemma CollectClientAt(s: State, k: Kind, id: Id)
    requires id in s.clients && ClientAt(s, id)
    ensures ClientAt(Collected(s, k), id)
  {
    CollectLocal(s, k, id);
    ClearConsistent(LocalAt(s, id), k);
  }

  lemma CollectClients(s: State, k: Kind)
    requires IoGood(s) && ClientsGood(s) && GoneGood(s)
    ensures IoGood(Collected(s, k)) && ClientsGood(Collected(s, k)) && GoneGood(Collected(s, k))
  {
    forall id | id in Collected(s, k).clients ensures ClientAt(Collected(s, k), id) {
      assert ClientAt(s, id);
      CollectClientAt(s, k, id);
    }
    forall id | id in s.gone ensures Forgotten(Collected(s, k).clients[id]) { ClearForgotten(s.clients[id], k); }
  }

  lemma CollectBytes(s: State, k: Kind, total: nat)
    requires BytesGood(s, total)
    ensures BytesGood(Collected(s, k), total)
  {
    assert Weights(Collected(s, k).clients, Charge) == Weights(s.clients, Charge);
  }

  lemma CollectGood(s: State, k: Kind, total: nat)
    requires Good(s, total)
    ensures Good(Collected(s, k), total)
  {
    CollectClients(s, k);
    CollectBytes(s, k, total);
    forall id: Id, other: Kind ensures CountedAt(Collected(s, k), id, other) {
      if other == k { CollectCountedSame(s, k, id); } else { CollectCountedOther(s, k, id, other); }
    }
  }

  /** Every step of the server keeps every client consistent, every queue in agreement with the
      clients' flags, every notice counted, and the byte account exact and within its bound. */
  lemma DoGood(s: State, step: Step, total: nat)
    requires Good(s, total) && Can(s, step, total)
    ensures Good(Do(s, step, total), total)
  {
    match step
    case Of(id, a) => OfGood(s, id, a, total);
    case Accept => AcceptGood(s, total);
    case Reap(id) => ReapGood(s, id, total);
    case Lease(_, _, _) => LeaseGood(s, step, total);
    case Return(_) => LeaseGood(s, step, total);
    case Collect(k) => CollectGood(s, k, total);
  }

  // ------------------------------------------------------------------------- whole runs

  predicate CanRun(s: State, steps: seq<Step>, total: nat)
    decreases |steps|
  {
    steps == [] || (Can(s, steps[0], total) && CanRun(Do(s, steps[0], total), steps[1..], total))
  }

  function RunAll(s: State, steps: seq<Step>, total: nat): State
    requires CanRun(s, steps, total)
    decreases |steps|
  {
    if steps == [] then s else RunAll(Do(s, steps[0], total), steps[1..], total)
  }

  lemma StartGood(total: nat)
    ensures Good(Start, total)
  {
    TotalZero(Weights(Start.clients, Charge));
    TotalZero(Start.leases);
  }

  lemma {:induction false} RunGood(s: State, steps: seq<Step>, total: nat)
    requires Good(s, total) && CanRun(s, steps, total)
    ensures Good(RunAll(s, steps, total), total)
    decreases |steps|
  {
    if steps != [] {
      DoGood(s, steps[0], total);
      RunGood(Do(s, steps[0], total), steps[1..], total);
    }
  }

  /** How often the owner has been told that the client ended, either way. */
  function Ended(s: State, id: Id): nat { Times(s.told.completions, id) + Times(s.told.cancellations, id) }

  /** What the owner may rely on about one client. */
  predicate Promised(s: State, id: Id)
    requires id in s.clients
  {
    var c := s.clients[id];
    // at most one admission, one stop and one end; none while the client lives
    && Times(s.told.admissions, id) <= 1 && Times(s.told.stops, id) <= 1 && Ended(s, id) <= 1
    && (c.alive ==> Ended(s, id) == 0)
    // exactly one end once an admitted client is gone and the owner has collected its notices
    && (!c.alive && c.admitted && !c.completionPending && !c.cancellationPending ==> Ended(s, id) == 1)
    // a completion means that every burst and then the result reached the output
    && (Times(s.told.completions, id) > 0 ==> !c.alive && c.replied && c.pushed == c.emitted)
    // bursts reach the output in the order they were emitted, at most one behind, and before the result
    && c.pushed <= c.emitted && (c.replied ==> c.pushed == c.emitted)
    && (c.alive && !c.broken ==> |c.emitted| <= |c.pushed| + 1)
    // an erased client waits in no queue
    && (id in s.gone ==>
        Times(s.queues.admissions, id) == 0 && Times(s.queues.cancellations, id) == 0
        && Times(s.queues.completions, id) == 0 && Times(s.queues.stops, id) == 0)
  }

  lemma GoodPromised(s: State, id: Id, total: nat)
    requires Good(s, total) && id in s.clients
    ensures Promised(s, id)
  {
    assert ClientAt(s, id);
    assert CountedAt(s, id, Admissions);
    assert CountedAt(s, id, Cancellations);
    assert CountedAt(s, id, Completions);
    assert CountedAt(s, id, Stoppings);
  }

  /** In every run from a fresh server: the promises hold of every client, and the bytes held in
      bodies are the sum of the clients' charges and stay, with the leased media, within the total. */
  lemma EveryRun(steps: seq<Step>, total: nat)
    requires CanRun(Start, steps, total)
    ensures var s := RunAll(Start, steps, total);
      && (forall id :: id in s.clients ==> Promised(s, id))
      && s.bodyBytes == Sum(s.clients, Charge) && s.media == Total(s.leases) && s.bodyBytes + s.media <= total
  {
    StartGood(total);
    RunGood(Start, steps, total);
    var s := RunAll(Start, steps, total);
    forall id | id in s.clients ensures Promised(s, id) { GoodPromised(s, id, total); }
  }

  /** A client stays known, and its history only grows. */
  ghost predicate GrownAt(s: State, t: State, id: Id) {
    id in s.clients ==> id in t.clients && Grows(s.clients[id], t.clients[id])
  }

  lemma PlacedGrows(s: State, other: Id, a: Action, id: Id)
    requires ClientsGood(s) && other in s.clients && Enabled(LocalAt(s, other), a)
    ensures GrownAt(s, Placed(s, other, a, Act(LocalAt(s, other), a)), id)
  {
    assert ClientAt(s, other);
    ActSound(LocalAt(s, other), a);
  }

  lemma CollectGrows(s: State, k: Kind, id: Id)
    ensures GrownAt(s, Collected(s, k), id)
  {
  }

  lemma DoGrows(s: State, step: Step, id: Id, total: nat)
    requires Good(s, total) && Can(s, step, total)
    ensures GrownAt(s, Do(s, step, total), id)
  {
    match step
    case Of(other, a) => PlacedGrows(s, other, a, id);
    case Accept => AcceptClients(s);
    case Collect(k) => CollectGrows(s, k, id);
    case _ =>
  }

  /** Nothing accepted or handed over is taken back later, and no end is undone. */
  lemma {:induction false} RunGrows(s: State, steps: seq<Step>, id: Id, total: nat)
    requires Good(s, total) && CanRun(s, steps, total)
    ensures GrownAt(s, RunAll(s, steps, total), id)
    decreases |steps|
  {
    if steps != [] {
      DoGrows(s, steps[0], id, total);
      DoGood(s, steps[0], total);
      RunGrows(Do(s, steps[0], total), steps[1..], id, total);
    }
  }

  // ------------------------------------------------------------- `ready`, then `emit`

  predicate OwnerStep(step: Step, id: Id) { step.Of? && step.id == id && OfOwner(step.action) }

  ghost predicate Awaits(s: State, id: Id) { id in s.clients && WillAccept(s.clients[id]) }

  lemma PlacedKeepsReady(s: State, other: Id, a: Action, after: Local, id: Id)
    requires Awaits(s, id) && other in s.clients && (other == id ==> WillAccept(after.c))
    ensures Awaits(Placed(s, other, a, after), id)
  {
  }

  lemma CollectKeepsReady(s: State, k: Kind, id: Id)
    requires Awaits(s, id)
    ensures Awaits(Collected(s, k), id)
  {
  }

  lemma OfKeepsReady(s: State, other: Id, a: Action, id: Id)
    requires ClientsGood(s) && Awaits(s, id) && other in s.clients && Enabled(LocalAt(s, other), a)
      && !(other == id && OfOwner(a))
    ensures Awaits(Placed(s, other, a, Act(LocalAt(s, other), a)), id)
  {
    assert ClientAt(s, id);
    if other == id { ReadyStays(LocalAt(s, id), a); }
    PlacedKeepsReady(s, other, a, Act(LocalAt(s, other), a), id);
  }

  lemma OthersKeepReady(s: State, step: Step, id: Id, total: nat)
    requires Good(s, total) && Can(s, step, total) && Awaits(s, id) && !OwnerStep(step, id)
    ensures Awaits(Do(s, step, total), id)
  {
    match step
    case Of(other, a) => OfKeepsReady(s, other, a, id);
    case Accept => AcceptClients(s);
    case Collect(k) => CollectKeepsReady(s, k, id);
    case _ =>
  }

  lemma {:induction false} RunKeepsReady(s: State, steps: seq<Step>, id: Id, total: nat)
    requires Good(s, total) && CanRun(s, steps, total) && Awaits(s, id)
    requires forall i :: 0 <= i < |steps| ==> !OwnerStep(steps[i], id)
    ensures Awaits(RunAll(s, steps, total), id)
    decreases |steps|
  {
    if steps != [] {
      OthersKeepReady(s, steps[0], id, total);
      DoGood(s, steps[0], total);
      RunKeepsReady(Do(s, steps[0], total), steps[1..], id, total);
    }
  }

  lemma ReadyReserves(s: State, id: Id)
    requires ClientsGood(s) && id in s.clients && IsReady(s.clients[id])
    ensures Awaits(Placed(s, id, Ready, Act(LocalAt(s, id), Ready)), id)
  {
    assert ClientAt(s, id);
    ReadyThenEmit(LocalAt(s, id));
  }

  /** The burst is recorded, or the client is gone and no client changes. */
  predicate Emitted(t: State, id: Id, burst: Burst, u: State)
    requires id in t.clients
  {
    if t.clients[id].alive then
      && Accepts(t.clients[id])
      && id in u.clients && u.clients[id].emitted == t.clients[id].emitted + [burst] && u.clients[id].tokens == burst
    else u.clients == t.clients
  }

  lemma EmitLands(t: State, id: Id, burst: Burst)
    requires ClientsGood(t) && Awaits(t, id) && burst != []
    ensures Emitted(t, id, burst, Placed(t, id, Emit(burst), Act(LocalAt(t, id), Emit(burst))))
  {
    assert ClientAt(t, id);
    EmitAccepted(LocalAt(t, id), burst);
  }

  /** After a true `ready`, whatever the other parties do, the owner's next `emit` for that client
      is recorded, or the client is gone and nothing changes. It never raises an error. */
  lemma ReadyThenAnythingThenEmit(s: State, id: Id, steps: seq<Step>, burst: Burst, total: nat)
    requires Good(s, total) && CanAct(s, id, Ready, total) && IsReady(s.clients[id]) && burst != []
    requires CanRun(Do(s, Of(id, Ready), total), steps, total)
    requires forall i :: 0 <= i < |steps| ==> !OwnerStep(steps[i], id)
    ensures var t := RunAll(Do(s, Of(id, Ready), total), steps, total);
      CanAct(t, id, Emit(burst), total) && Emitted(t, id, burst, Do(t, Of(id, Emit(burst)), total))
  {
    ReadyReserves(s, id);
    DoGood(s, Of(id, Ready), total);
    var r := Do(s, Of(id, Ready), total);
    RunKeepsReady(r, steps, id, total);
    RunGood(r, steps, total);
    EmitLands(RunAll(r, steps, total), id, burst);
  }

  // ---------------------------------------------------------------------- the slot turns

  /** The client of a burst that waits for the I/O thread, with nothing else in the way. */
  predicate Deliverable(l: Local) {
    l.hand.Nothing? && l.c.alive && !l.c.terminal && l.c.tokens != [] && !l.c.wire && !l.c.closing && !l.c.stopPending
  }

  lemma ReachesOutput(l: Local)
    requires Consistent(l) && Deliverable(l)
    ensures Enabled(l, Enter) && Enabled(Act(l, Enter), Pass) && Act(l, Enter) == Local(l.c, Entered(false, false))
    ensures Act(Act(l, Enter), Pass) == Local(l.c, Checked)
    ensures Enabled(Local(l.c, Checked), Take)
      && Act(Local(l.c, Checked), Take) == Local(l.c.(tokens := []), Taken(l.c.tokens, false))
  {
    assert Act(l, Enter) == Local(l.c, Entered(false, false));
    assert Act(Local(l.c, Entered(false, false)), Pass) == Local(l.c, Checked);
  }

  lemma PushedThenSettled(l: Local, streams: bool)
    requires Consistent(l) && Deliverable(l)
    ensures var taken := Local(l.c.(tokens := []), Taken(l.c.tokens, false));
      var handed := l.c.(tokens := [], wire := streams, pushed := l.c.pushed + [l.c.tokens]);
      && Enabled(taken, Push(true, streams, false))
      && Act(taken, Push(true, streams, false)) == Local(handed, Pushed(false, false))
      && Enabled(Local(handed, Pushed(false, false)), Settle)
      && Act(Local(handed, Pushed(false, false)), Settle)
         == Local(if streams then handed else handed.(reserved := false, occupied := false), Nothing)
  {
  }

  lemma WrittenOut(l: Local)
    requires l.hand.Nothing? && l.c.alive && l.c.wire && !l.c.closing && !l.c.terminal && !l.c.stopPending
    requires l.c.admitted && l.c.occupied && l.c.tokens == [] && !l.c.result
    ensures Enabled(l, Write(true)) && IsReady(Act(l, Write(true)).c) && Act(l, Write(true)).c.pushed == l.c.pushed
  {
  }

  predicate CanDo(l: Local, actions: seq<Action>)
    decreases |actions|
  {
    actions == [] || (Enabled(l, actions[0]) && CanDo(Act(l, actions[0]), actions[1..]))
  }

  function DoAll(l: Local, actions: seq<Action>): Local
    requires CanDo(l, actions)
    decreases |actions|
  {
    if actions == [] then l else DoAll(Act(l, actions[0]), actions[1..])
  }

  lemma DoFirst(l: Local, a: Action, rest: seq<Action>)
    requires Enabled(l, a) && CanDo(Act(l, a), rest)
    ensures CanDo(l, [a] + rest) && DoAll(l, [a] + rest) == DoAll(Act(l, a), rest)
  {
    assert ([a] + rest)[1..] == rest;
  }

  const Arrival := [Enter, Pass, Take]

  function Delivery(streams: bool): seq<Action> {
    [Push(true, streams, false), Settle] + if streams then [Write(true)] else []
  }

  lemma TakesBurst(l: Local)
    requires Consistent(l) && Deliverable(l)
    ensures CanDo(l, Arrival) && DoAll(l, Arrival) == Local(l.c.(tokens := []), Taken(l.c.tokens, false))
  {
    ReachesOutput(l);
    var taken := Local(l.c.(tokens := []), Taken(l.c.tokens, false));
    assert CanDo(taken, []) && DoAll(taken, []) == taken;
    DoFirst(Local(l.c, Checked), Take, []);
    DoFirst(Act(l, Enter), Pass, [Take]);
    DoFirst(l, Enter, [Pass] + [Take]);
    assert [Enter] + ([Pass] + [Take]) == Arrival && [Take] + [] == [Take];
  }

  /** A burst taken and pushed without a stop frees the slot: at once when the response is not
      streamed, else when its bytes have been written. The owner's next `ready` is true. */
  lemma SlotTurns(l: Local, streams: bool)
    requires Consistent(l) && Deliverable(l)
    ensures CanDo(l, Arrival)
    ensures CanDo(DoAll(l, Arrival), Delivery(streams))
    ensures var after := DoAll(DoAll(l, Arrival),
      Delivery(streams)); IsReady(after.c) && after.c.pushed == l.c.pushed + [l.c.tokens]
  {
    TakesBurst(l);
    PushedThenSettled(l, streams);
    var taken := DoAll(l, Arrival);
    var pushed := Act(taken, Push(true, streams, false));
    var settled := Act(pushed, Settle);
    SettledReady(l, streams, settled);
    if streams {
      DoFirst(settled, Write(true), []);
      DoFirst(pushed, Settle, [Write(true)]);
      DoFirst(taken, Push(true, streams, false), [Settle] + [Write(true)]);
      assert Delivery(streams) == [Push(true, streams, false)] + ([Settle] + [Write(true)])
          && [Write(true)] + [] == [Write(true)];
    } else {
      DoFirst(pushed, Settle, []);
      DoFirst(taken, Push(true, streams, false), [Settle]);
      assert Delivery(streams) == [Push(true, streams, false)] + [Settle] && [Settle] + [] == [Settle];
    }
  }

  lemma SettledReady(l: Local, streams: bool, settled: Local)
    requires Consistent(l) && Deliverable(l)
    requires var handed := l.c.(tokens := [], wire := streams, pushed := l.c.pushed + [l.c.tokens]);
      settled == Local(if streams then handed else handed.(reserved := false, occupied := false), Nothing)
    ensures settled.c.pushed == l.c.pushed + [l.c.tokens]
    ensures streams ==> Enabled(settled, Write(true)) && IsReady(Act(settled, Write(true)).c)
    ensures streams ==> Act(settled, Write(true)).c.pushed == settled.c.pushed
    ensures !streams ==> IsReady(settled.c)
  {
    if streams { WrittenOut(settled); }
  }

  // ----------------------------------------------------------- a full slot is emptied

  /** What an occupied slot waits for. */
  predicate Occupancy(l: Local) {
    var c := l.c;
    && (c.occupied && !c.terminal ==> c.admitted)
    && (c.alive && c.occupied && !c.terminal ==> c.tokens != [] || HoldsBurst(l.hand) || l.hand.Pushed? || c.wire)
    && (l.hand.Checked? || l.hand.Taken? ==> !c.wire)
    && (c.admitted && c.closing ==> c.terminal)
  }

  lemma ReadingOccupancy(l: Local, a: Action)
    requires Consistent(l) && Occupancy(l) && Enabled(l, a) && Reading(a)
    ensures Occupancy(ActReading(l, a))
  {
    match a
    case Headers(length, room) => assert Occupancy(ActReading(l, Headers(length, room)));
    case SubmitJob => assert Occupancy(ActReading(l, SubmitJob));
    case SubmitDirect => assert Occupancy(ActReading(l, SubmitDirect));
    case BadRequest => assert Occupancy(ActReading(l, BadRequest));
    case WorkDone(parsed) => assert Occupancy(ActReading(l, WorkDone(parsed)));
  }

  lemma FailingOccupancy(l: Local, a: Action)
    requires Consistent(l) && Occupancy(l) && Enabled(l, a) && Failing(a)
    ensures Occupancy(ActFailing(l, a))
  {
    match a
    case Enter => assert Occupancy(ActFailing(l, Enter));
    case FailWait => assert Occupancy(ActFailing(l, FailWait));
    case FailReply => assert Occupancy(ActFailing(l, FailReply));
    case FailDrop => assert Occupancy(ActFailing(l, FailDrop));
    case FailAgain => assert Occupancy(ActFailing(l, FailAgain));
  }

  lemma DispatchingOccupancy(l: Local, a: Action)
    requires Consistent(l) && Occupancy(l) && Enabled(l, a) && Dispatching(a)
    ensures Occupancy(ActDispatching(l, a))
  {
    match a
    case Answer => assert Occupancy(ActDispatching(l, Answer));
    case Refuse => assert Occupancy(ActDispatching(l, Refuse));
    case Admit => assert Occupancy(ActDispatching(l, Admit));
    case Pass => assert Occupancy(ActDispatching(l, Pass));
  }

  lemma DeliveringOccupancy(l: Local, a: Action)
    requires Consistent(l) && Occupancy(l) && Enabled(l, a) && Delivering(a)
    ensures Occupancy(ActDelivering(l, a))
  {
    match a
    case Take => assert Occupancy(ActDelivering(l, Take));
    case Push(ok, streams, stops) => assert Occupancy(ActDelivering(l, Push(ok, streams, stops)));
    case NotifyStop => assert Occupancy(ActDelivering(l, NotifyStop));
  }

  lemma RespondOccupancy(l: Local, ok: bool, starts: bool)
    requires Consistent(l) && Occupancy(l) && Enabled(l, Respond(ok, starts))
    ensures Occupancy(ActEnding(l, Respond(ok, starts)))
  {
  }

  lemma SettleOccupancy(l: Local)
    requires Consistent(l) && Occupancy(l) && Enabled(l, Settle)
    ensures Occupancy(ActEnding(l, Settle))
  {
  }

  lemma WriteOccupancy(l: Local, full: bool)
    requires Consistent(l) && Occupancy(l) && Enabled(l, Write(full))
    ensures Occupancy(ActEnding(l, Write(full)))
  {
    if Leaves(l, Write(full)) { assert Act(l, Write(full)).c == Disconnected(l.c, true); }
  }

  lemma DropOccupancy(l: Local)
    requires Consistent(l) && Occupancy(l) && Enabled(l, Drop)
    ensures Occupancy(ActEnding(l, Drop))
  {
  }

  lemma EndingOccupancy(l: Local, a: Action)
    requires Consistent(l) && Occupancy(l) && Enabled(l, a) && Ending(a)
    ensures Occupancy(ActEnding(l, a))
  {
    match a
    case Respond(ok, starts) => RespondOccupancy(l, ok, starts);
    case Settle => SettleOccupancy(l);
    case Write(full) => WriteOccupancy(l, full);
    case Drop => DropOccupancy(l);
  }

  lemma OfOwnerOccupancy(l: Local, a: Action)
    requires Consistent(l) && Occupancy(l) && Enabled(l, a) && OfOwner(a)
    ensures Occupancy(ActOfOwner(l, a))
  {
    match a
    case Ready => assert Occupancy(ActOfOwner(l, Ready));
    case Emit(burst) => assert Occupancy(ActOfOwner(l, Emit(burst)));
    case Finish => assert Occupancy(ActOfOwner(l, Finish));
    case Reject => assert Occupancy(ActOfOwner(l, Reject));
  }

  lemma ActOccupancy(l: Local, a: Action)
    requires Consistent(l) && Occupancy(l) && Enabled(l, a)
    ensures Occupancy(Act(l, a))
  {
    if Reading(a) { ReadingOccupancy(l, a); }
    else if Failing(a) { FailingOccupancy(l, a); }
    else if Dispatching(a) { DispatchingOccupancy(l, a); }
    else if Delivering(a) { DeliveringOccupancy(l, a); }
    else if Ending(a) { EndingOccupancy(l, a); }
    else { OfOwnerOccupancy(l, a); }
  }

  /** A living client whose slot is taken and that may still emit. */
  predicate Full(c: Client) { c.alive && c.occupied && !c.terminal }

  /** The steps a fair I/O thread must take for a client again and again: writing out what is on the
      wire, and processing a client with nothing on it. */
  predicate Useful(l: Local, a: Action) { (a == Write(true) && l.c.wire) || (a.Enter? && !l.c.wire) }

  /** How many useful steps a full slot can still outlast. */
  function Rank(l: Local): nat {
    if l.c.tokens == [] then 1
    else if l.c.wire then 3
    else if l.hand.Nothing? || l.hand.Taken? then 2
    else 1
  }

  /** A full slot is past reading and preparation. */
  lemma ReadingDone(l: Local, a: Action)
    requires Consistent(l) && Occupancy(l) && Enabled(l, a) && Reading(a)
    ensures !Full(l.c)
  {
  }

  lemma FailingRank(l: Local, a: Action)
    requires Consistent(l) && Occupancy(l) && Enabled(l, a) && Failing(a) && Full(l.c) && Full(ActFailing(l, a).c)
    ensures Rank(ActFailing(l, a)) + (if Useful(l, a) then 1 else 0) <= Rank(l)
  {
  }

  lemma DispatchingRank(l: Local, a: Action)
    requires Consistent(l) && Occupancy(l) && Enabled(l, a) && Dispatching(a) && Full(l.c)
      && Full(ActDispatching(l, a).c)
    ensures Rank(ActDispatching(l, a)) + (if Useful(l, a) then 1 else 0) <= Rank(l)
  {
  }

  lemma DeliveringRank(l: Local, a: Action)
    requires Consistent(l) && Occupancy(l) && Enabled(l, a) && Delivering(a) && Full(l.c) && Full(ActDelivering(l, a).c)
    ensures Rank(ActDelivering(l, a)) + (if Useful(l, a) then 1 else 0) <= Rank(l)
  {
  }

  lemma EndingRank(l: Local, a: Action)
    requires Consistent(l) && Occupancy(l) && Enabled(l, a) && Ending(a) && Full(l.c) && Full(ActEnding(l, a).c)
    ensures Rank(ActEnding(l, a)) + (if Useful(l, a) then 1 else 0) <= Rank(l)
  {
  }

  lemma OfOwnerRank(l: Local, a: Action)
    requires Consistent(l) && Occupancy(l) && Enabled(l, a) && OfOwner(a) && Full(l.c) && Full(ActOfOwner(l, a).c)
    ensures Rank(ActOfOwner(l, a)) + (if Useful(l, a) then 1 else 0) <= Rank(l)
  {
  }

  lemma ActRank(l: Local, a: Action)
    requires Consistent(l) && Occupancy(l) && Enabled(l, a) && Full(l.c) && Full(Act(l, a).c)
    ensures Rank(Act(l, a)) + (if Useful(l, a) then 1 else 0) <= Rank(l)
  {
    if Reading(a) { ReadingDone(l, a); }
    else if Failing(a) { FailingRank(l, a); }
    else if Dispatching(a) { DispatchingRank(l, a); }
    else if Delivering(a) { DeliveringRank(l, a); }
    else if Ending(a) { EndingRank(l, a); }
    else { OfOwnerRank(l, a); }
  }

  ghost predicate Occupied(s: State) { forall id :: id in s.clients ==> Occupancy(LocalAt(s, id)) }

  lemma PlacedOccupied(s: State, id: Id, a: Action, after: Local)
    requires Occupied(s) && id in s.clients && Occupancy(after) && (OfIo(a) ==> s.io.Idle? || s.io.id == id)
    requires !OfIo(a) ==> after.hand == LocalAt(s, id).hand
    ensures Occupied(Placed(s, id, a, after))
  {
    var t := Placed(s, id, a, after);
    forall other | other in t.clients ensures Occupancy(LocalAt(t, other)) {
      assert LocalAt(t, other) == if other == id then after else LocalAt(s, other);
    }
  }

  lemma CollectedOccupied(s: State, k: Kind)
    requires Occupied(s)
    ensures Occupied(Collected(s, k))
  {
    forall id | id in Collected(s, k).clients ensures Occupancy(LocalAt(Collected(s, k), id)) {
      assert Occupancy(LocalAt(s, id));
      CollectLocal(s, k, id);
      ClearOccupancy(LocalAt(s, id), k);
    }
  }

  lemma AcceptedOccupied(s: State)
    requires Occupied(s) && IoGood(s) && s.nextId + 1 !in s.clients
    ensures Occupied(Accepted(s))
  {
    var t := Accepted(s);
    forall id | id in t.clients ensures Occupancy(LocalAt(t, id)) {
      if id != s.nextId + 1 { assert LocalAt(t, id) == LocalAt(s, id); }
    }
  }

  lemma OfOccupied(s: State, id: Id, a: Action, total: nat)
    requires Good(s, total) && Occupied(s) && CanAct(s, id, a, total)
    ensures Occupied(Placed(s, id, a, Act(LocalAt(s, id), a)))
  {
    var l := LocalAt(s, id);
    assert ClientAt(s, id);
    ActOccupancy(l, a);
    if !OfIo(a) { ActHand(l, a); }
    PlacedOccupied(s, id, a, Act(l, a));
  }

  lemma DoOccupied(s: State, step: Step, total: nat)
    requires Good(s, total) && Occupied(s) && Can(s, step, total)
    ensures Occupied(Do(s, step, total))
  {
    match step
    case Of(id, a) => OfOccupied(s, id, a, total);
    case Accept =>
      AcceptClients(s);
      AcceptedOccupied(s);
    case Collect(k) => CollectedOccupied(s, k);
    case Reap(id) =>
      forall other | other in s.clients ensures Occupancy(LocalAt(Do(s, step, total), other)) {
        assert Occupancy(LocalAt(s, other));
      }
    case _ =>
      forall other | other in s.clients ensures Occupancy(LocalAt(Do(s, step, total), other)) {
        assert Occupancy(LocalAt(s, other));
      }
  }

  // ------------------------------------------------------------- over runs

  predicate FullAt(s: State, id: Id) { id in s.clients && Full(s.clients[id]) }

  function RankAt(s: State, id: Id): nat { if id in s.clients then Rank(LocalAt(s, id)) else 0 }

  predicate UsefulStep(s: State, step: Step, id: Id) {
    step.Of? && step.id == id && id in s.clients && Useful(LocalAt(s, id), step.action)
  }

  lemma PlacedRank(s: State, other: Id, a: Action, after: Local, id: Id)
    requires id in s.clients && other in s.clients && (OfIo(a) ==> s.io.Idle? || s.io.id == other)
    requires !OfIo(a) ==> after.hand == LocalAt(s, other).hand
    ensures LocalAt(Placed(s, other, a, after), id) == if other == id then after else LocalAt(s, id)
  {
  }

  lemma OfRank(s: State, other: Id, a: Action, id: Id, total: nat)
    requires Good(s, total) && Occupied(s) && CanAct(s, other, a, total) && FullAt(s, id)
    requires FullAt(Placed(s, other, a, Act(LocalAt(s, other), a)), id)
    ensures RankAt(Placed(s, other, a, Act(LocalAt(s, other), a)), id)
      + (if UsefulStep(s, Of(other, a), id) then 1 else 0) <= RankAt(s, id)
  {
    var l := LocalAt(s, other);
    assert ClientAt(s, other);
    if !OfIo(a) { ActHand(l, a); }
    PlacedRank(s, other, a, Act(l, a), id);
    if other == id { ActRank(l, a); }
  }

  lemma CollectedRank(s: State, k: Kind, id: Id)
    requires id in s.clients
    ensures RankAt(Collected(s, k), id) == RankAt(s, id)
  {
  }

  lemma DoRank(s: State, step: Step, id: Id, total: nat)
    requires Good(s, total) && Occupied(s) && Can(s, step, total) && FullAt(s, id) && FullAt(Do(s, step, total), id)
    ensures RankAt(Do(s, step, total), id) + (if UsefulStep(s, step, id) then 1 else 0) <= RankAt(s, id)
  {
    match step
    case Of(other, a) => OfRank(s, other, a, id, total);
    case Accept => AcceptClients(s);
    case Collect(k) => CollectedRank(s, k, id);
    case _ =>
  }

  /** The slot stays taken and the client goes on living through the whole run. */
  predicate StaysFull(s: State, steps: seq<Step>, id: Id, total: nat)
    requires CanRun(s, steps, total)
    decreases |steps|
  {
    FullAt(s, id) && (steps == [] || StaysFull(Do(s, steps[0], total), steps[1..], id, total))
  }

  /** How often the run does something useful for the client. */
  function UsefulSteps(s: State, steps: seq<Step>, id: Id, total: nat): nat
    requires CanRun(s, steps, total)
    decreases |steps|
  {
    if steps == [] then 0
    else (if UsefulStep(s, steps[0], id) then 1 else 0) + UsefulSteps(Do(s, steps[0], total), steps[1..], id, total)
  }

  lemma {:induction false} FullRunIsIdle(s: State, steps: seq<Step>, id: Id, total: nat)
    requires Good(s, total) && Occupied(s) && CanRun(s, steps, total) && StaysFull(s, steps, id, total)
    ensures UsefulSteps(s, steps, id, total) <= RankAt(s, id)
    decreases |steps|
  {
    if steps != [] {
      DoRank(s, steps[0], id, total);
      DoGood(s, steps[0], total);
      DoOccupied(s, steps[0], total);
      FullRunIsIdle(Do(s, steps[0], total), steps[1..], id, total);
    }
  }

  lemma {:induction false} RunOccupied(s: State, steps: seq<Step>, total: nat)
    requires Good(s, total) && Occupied(s) && CanRun(s, steps, total)
    ensures Occupied(RunAll(s, steps, total))
    decreases |steps|
  {
    if steps != [] {
      DoGood(s, steps[0], total);
      DoOccupied(s, steps[0], total);
      RunOccupied(Do(s, steps[0], total), steps[1..], total);
    }
  }

  /** From every reachable state, whatever all parties do in between: once the I/O thread has written
      the client's output out, or processed it with nothing on the wire, four times in all, the slot
      has been freed, or the client has ended. */
  lemma FairRunFrees(before: seq<Step>, steps: seq<Step>, id: Id, total: nat)
    requires CanRun(Start, before, total) && CanRun(RunAll(Start, before, total), steps, total)
    requires UsefulSteps(RunAll(Start, before, total), steps, id, total) >= 4
    ensures !StaysFull(RunAll(Start, before, total), steps, id, total)
  {
    StartGood(total);
    RunGood(Start, before, total);
    RunOccupied(Start, before, total);
    var s := RunAll(Start, before, total);
    if StaysFull(s, steps, id, total) { FullRunIsIdle(s, steps, id, total); }
  }
}
