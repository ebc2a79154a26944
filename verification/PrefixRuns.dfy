/** Whole runs of the prefix index: any sequence of operations leaves what a plain map and a list
    of admissions would, and a lookup prefers the checkpoint admitted last. */
module PrefixRuns {
  import opened Prompts
  import opened PrefixArena
  import opened PrefixRecords
  import opened PrefixLog
  import opened PrefixLookups
  import opened PrefixThinning
  import opened PrefixClock
  import opened PrefixIndexes

  datatype Op =
    | Admit(checkpoint: CheckpointId, history: History, source: Source, eligible: Option<Usable>)
    | Remove(gone: CheckpointId)
    | MarkUsed(used: CheckpointId)
    | SetPriority(ranked: CheckpointId, priority: Priority)
    | SelectVictim(evictable: Usable, bytes: Bytes)

  /** What became of an operation: a checkpoint entered, perhaps at the cost of another one; a
      checkpoint left; or neither. */
  datatype Event =
    | Entered(checkpoint: CheckpointId, history: History, thinned: Option<CheckpointId>)
    | Left(gone: CheckpointId)
    | Unchanged

  /** The events an operation can have. */
  predicate Explains(op: Op, e: Event) {
    match op
    case Admit(c, h, _, _) => e.Entered? ==> e.checkpoint == c && e.history == h
    case Remove(c) => e == Left(c)
    case _ => e.Unchanged?
  }

  // ------------------------------------------------------ the plain map and the list

  function Names(log: seq<Mark>): (r: seq<CheckpointId>)
    ensures |r| == |log| && forall i :: 0 <= i < |r| ==> r[i] == log[i].checkpoint
  {
    seq(|log|, i requires 0 <= i < |log| => log[i].checkpoint)
  }

  function Leaving(order: seq<CheckpointId>, c: CheckpointId): (r: seq<CheckpointId>)
    ensures forall d :: d in r <==> d in order && d != c
  {
    if order == [] then []
    else (if order[0] == c then [] else [order[0]]) + Leaving(order[1..], c)
  }

  function OrderStep(order: seq<CheckpointId>, e: Event): seq<CheckpointId> {
    match e
    case Entered(c, _, thinned) => if thinned.Some? then Leaving([c] + order, thinned.value) else [c] + order
    case Left(c) => Leaving(order, c)
    case Unchanged => order
  }

  function PlainStep(m: map<CheckpointId, History>, e: Event): map<CheckpointId, History> {
    match e
    case Entered(c, h, thinned) => Less(m[c := h], thinned)
    case Left(c) => m - {c}
    case Unchanged => m
  }

  function Init<T>(s: seq<T>): seq<T>
    requires s != []
  {
    s[..|s| - 1]
  }

  function Last<T>(s: seq<T>): T
    requires s != []
  {
    s[|s| - 1]
  }

  /** The checkpoints retained after a run, newest first, and their histories. */
  function Order(events: seq<Event>): seq<CheckpointId> {
    if events == [] then [] else OrderStep(Order(Init(events)), Last(events))
  }

  function Plain(events: seq<Event>): map<CheckpointId, History> {
    if events == [] then map[] else PlainStep(Plain(Init(events)), Last(events))
  }

  /** Only a checkpoint that is not there can enter. */
  predicate Sensible(events: seq<Event>) {
    events == [] || (Sensible(Init(events))
        && (Last(events).Entered? ==> Last(events).checkpoint !in Plain(Init(events))))
  }

  /** When `c` was last admitted. */
  function LastEntered(events: seq<Event>, c: CheckpointId): int {
    if events == [] then -1
    else if Last(events).Entered? && Last(events).checkpoint == c then |events| - 1
    else LastEntered(Init(events), c)
  }

  lemma {:induction false} LastEnteredBounds(events: seq<Event>, c: CheckpointId)
    ensures -1 <= LastEntered(events, c) < |events|
  {
    if events != [] { LastEnteredBounds(Init(events), c); }
  }

  ghost predicate Recent(events: seq<Event>, order: seq<CheckpointId>) {
    forall i, j :: 0 <= i < j < |order| ==> LastEntered(events, order[i]) > LastEntered(events, order[j])
  }

  lemma {:induction false} LeavingRecent(events: seq<Event>, order: seq<CheckpointId>, c: CheckpointId)
    requires Recent(events, order)
    ensures Recent(events, Leaving(order, c))
    decreases |order|
  {
    if order != [] {
      LeavingRecent(events, order[1..], c);
      forall d | d in Leaving(order[1..], c) ensures LastEntered(events, order[0]) > LastEntered(events, d) {
        var k :| 0 <= k < |order[1..]| && order[1..][k] == d;
        assert order[k + 1] == d;
      }
    }
  }

  lemma {:induction false} OrderIsPlain(events: seq<Event>)
    ensures forall c :: c in Order(events) <==> c in Plain(events)
  {
    if events != [] { OrderIsPlain(Init(events)); }
  }

  /** The list is in order of the last admission, the latest first. */
  lemma {:induction false} OrderIsRecency(events: seq<Event>)
    requires Sensible(events)
    ensures Recent(events, Order(events))
  {
    if events != [] {
      var init, e, before := Init(events), Last(events), Order(Init(events));
      OrderIsRecency(init);
      OrderIsPlain(init);
      forall c | c in before ensures LastEntered(events, c) == LastEntered(init, c) < |events| - 1 {
        LastEnteredBounds(init, c);
      }
      assert Recent(events, before);
      match e {
        case Entered(c, _, thinned) =>
          assert Recent(events, [c] + before);
          if thinned.Some? { LeavingRecent(events, [c] + before, thinned.value); }
        case Left(c) => LeavingRecent(events, before, c);
        case Unchanged =>
      }
    }
  }

  // ------------------------------------------------------------------- running it

  lemma {:induction false} NamesDropped(log: seq<Mark>, c: CheckpointId)
    ensures Names(Dropped(log, c)) == Leaving(Names(log), c)
    decreases |log|
  {
    if log != [] {
      NamesDropped(log[1..], c);
      assert Names(log)[1..] == Names(log[1..]);
    }
  }

  lemma NamesMerged(log: seq<Mark>, c: CheckpointId, source: Source)
    ensures Names(Merged(log, c, source)) == Names(log)
  {
  }

  lemma NamesAfter(log: seq<Mark>, order: nat, c: CheckpointId, h: History, source: Source, present: bool, r: Admission)
    requires present ==> !r.Admitted?
    requires !present ==> !r.Present?
    ensures Names(LogAfter(log, order, c, source, present, r)) == OrderStep(Names(log), EventOf(c, h, present, r))
  {
    var longer := [NewMark(c, source, order)] + log;
    assert Names(longer) == [c] + Names(log);
    NamesMerged(log, c, source);
    match r {
      case Admitted(thinned) => if thinned.Some? { NamesDropped(longer, thinned.value); }
      case Present(thinned) => if thinned.Some? { NamesDropped(Merged(log, c, source), thinned.value); }
      case _ =>
    }
  }

  function EventOf(c: CheckpointId, h: History, present: bool, r: Admission): Event {
    match r
    case Admitted(thinned) => Entered(c, h, thinned)
    case Present(thinned) => if thinned.Some? then Left(thinned.value) else Unchanged
    case Overfull => if present then Unchanged else Entered(c, h, None)
    case _ => Unchanged
  }

  lemma SameNames(s: seq<Slot>, t: seq<Slot>, g: Shape)
    requires forall k: nat :: k in g.active ==> RecordOf(t, k).checkpoint == RecordOf(s, k).checkpoint
    ensures Names(LogOf(t, g)) == Names(LogOf(s, g))
  {
    forall i | 0 <= i < |g.active| ensures Names(LogOf(t, g))[i] == Names(LogOf(s, g))[i] {
      assert g.active[i] in g.active;
    }
  }

  lemma AgedNames(s: seq<Slot>, t: seq<Slot>, g: Shape, eligible: Usable)
    requires AgedOnly(s, t, g, eligible)
    ensures Names(LogOf(t, g)) == Names(LogOf(s, g))
  {
    forall k: nat | k in g.active ensures RecordOf(t, k).checkpoint == RecordOf(s, k).checkpoint {
      assert AgedAt(s, t, g, eligible, k);
    }
    SameNames(s, t, g);
  }

  /** One operation is one step of the plain map and the list. */
  method Apply(index: PrefixIndex, op: Op) returns (ghost e: Event)
    requires index.Valid()
    modifies index, index.slots
    ensures index.Valid() && Explains(op, e) && (e.Entered? ==> e.checkpoint !in old(index.Retained()))
    ensures index.Retained() == PlainStep(old(index.Retained()), e)
    ensures Names(index.Log()) == OrderStep(old(Names(index.Log())), e)
  {
    match op {
      case Admit(c, h, source, eligible) => e := ApplyAdmit(index, c, h, source, eligible);
      case Remove(c) =>
        NamesDropped(index.Log(), c);
        var _ := index.Remove(c);
        e := Left(c);
      case _ =>
        ApplyMark(index, op);
        e := Unchanged;
    }
  }

  method ApplyAdmit(index: PrefixIndex, c: CheckpointId, h: History, source: Source, eligible: Option<Usable>)
    returns (ghost e: Event)
    requires index.Valid()
    modifies index, index.slots
    ensures index.Valid() && (e.Entered? ==> e.checkpoint == c && e.history == h && c !in old(index.Retained()))
    ensures index.Retained() == PlainStep(old(index.Retained()), e)
    ensures Names(index.Log()) == OrderStep(old(Names(index.Log())), e)
  {
    ghost var log, present, order := index.Log(), c in index.Retained(), index.nextOrder;
    var r := index.Admit(c, h, source, eligible);
    e := EventOf(c, h, present, r);
    NamesAfter(log, order, c, h, source, present, r);
  }

  /** Operations on marks leave the map and the list alone. */
  method ApplyMark(index: PrefixIndex, op: Op)
    requires index.Valid() && !op.Admit? && !op.Remove?
    modifies index, index.slots
    ensures index.Valid() && index.Retained() == old(index.Retained())
    ensures Names(index.Log()) == old(Names(index.Log()))
  {
    ghost var s, g := index.slots[..], index.shape;
    match op {
      case MarkUsed(c) =>
        var _ := index.MarkUsed(c);
        SameNames(s, index.slots[..], g);
      case SetPriority(c, p) =>
        var _ := index.SetPriority(c, p);
        SameNames(s, index.slots[..], g);
      case SelectVictim(eligible, bytes) =>
        var victim;
        ghost var steps;
        victim, steps := index.SelectClockVictim(eligible, bytes);
        AgedNames(s, index.slots[..], g, eligible);
    }
  }

  /** Every event so far is one its operation can have. */
  ghost predicate Told(ops: seq<Op>, events: seq<Event>) {
    |events| <= |ops| && forall i :: 0 <= i < |events| ==> Explains(ops[i], events[i])
  }

  /** One event more is one step more. */
  lemma Grown(events: seq<Event>, e: Event)
    requires Sensible(events) && (e.Entered? ==> e.checkpoint !in Plain(events))
    ensures Sensible(events + [e])
    ensures Plain(events + [e]) == PlainStep(Plain(events), e) && Order(events + [e]) == OrderStep(Order(events), e)
  {
    var longer := events + [e];
    assert Init(longer) == events && Last(longer) == e && longer != [];
  }

  lemma ToldOn(ops: seq<Op>, events: seq<Event>, e: Event)
    requires |events| < |ops| && Told(ops, events) && Explains(ops[|events|], e)
    ensures Told(ops, events + [e])
  {
  }

  /** Any run from an empty index. */
  method Run(index: PrefixIndex, ops: seq<Op>) returns (ghost events: seq<Event>)
    requires index.Valid() && index.Retained() == map[] && index.Log() == []
    modifies index, index.slots
    ensures index.Valid() && |events| == |ops| && Sensible(events)
    ensures forall i :: 0 <= i < |ops| ==> Explains(ops[i], events[i])
    ensures index.Retained() == Plain(events) && Names(index.Log()) == Order(events)
  {
    events := [];
    for n := 0 to |ops|
      invariant index.Valid() && |events| == n && Sensible(events)
      invariant Told(ops, events)
      invariant index.Retained() == Plain(events) && Names(index.Log()) == Order(events)
    {
      ghost var e := Apply(index, ops[n]);
      Grown(events, e);
      ToldOn(ops, events, e);
      events := events + [e];
    }
  }

  /** What a lookup after a run may answer, said of the run alone. */
  ghost predicate Answers(events: seq<Event>, q: History, usable: Usable, r: Lookup) {
    var m := Plain(events);
    && (forall c, n: nat :: c in m && SharesWith(q, m[c], n) ==> n <= r.longest)
    && (r.longest > 0 ==> exists c :: c in m && SharesWith(q, m[c], r.longest))
    && (r.checkpoint == 0 ==> forall c :: c in m && usable(c) ==> !FullMatch(q, m[c]))
    && (r.checkpoint != 0 ==>
          && r.checkpoint in m && usable(r.checkpoint) && FullMatch(q, m[r.checkpoint])
          && r.tokens == |m[r.checkpoint].tokens|
          && forall c :: c in m && usable(c) && FullMatch(q, m[c]) ==> NoBetter(events, r, c))
  }

  /** `c` is shorter than the answer, or as long and not admitted later. */
  predicate NoBetter(events: seq<Event>, r: Lookup, c: CheckpointId)
    requires c in Plain(events)
  {
    var n := |Plain(events)[c].tokens|;
    n < r.tokens || (n == r.tokens && LastEntered(events, c) <= LastEntered(events, r.checkpoint))
  }

  /** A tie stands behind the answer in the list. */
  lemma TieIsOlder(index: PrefixIndex, order: seq<CheckpointId>, q: History, usable: Usable, r: Lookup, c: CheckpointId)
    requires index.NewestOfTies(q, usable, r) && index.Ties(q, usable, r, c)
    requires order == Names(index.Log()) && c in order && r.checkpoint in order
    ensures exists i, j :: 0 <= j <= i < |order| && order[i] == c && order[j] == r.checkpoint
  {
    var i :| 0 <= i < |order| && order[i] == c;
    var j :| 0 <= j < |order| && order[j] == r.checkpoint;
    assert index.Log()[i].checkpoint == c && index.Log()[j].checkpoint == r.checkpoint;
  }

  lemma MatchIsNoBetter(index: PrefixIndex, events: seq<Event>, q: History, usable: Usable, r: Lookup, c: CheckpointId)
    requires index.NewestOfTies(q, usable, r) && index.Deepest(q, usable, r) && Sensible(events)
    requires index.Retained() == Plain(events) && Names(index.Log()) == Order(events)
    requires r.checkpoint in Plain(events) && c in Plain(events) && usable(c) && FullMatch(q, Plain(events)[c])
    ensures NoBetter(events, r, c)
  {
    OrderIsRecency(events);
    OrderIsPlain(events);
    if |Plain(events)[c].tokens| == r.tokens {
      TieIsOlder(index, Order(events), q, usable, r, c);
    }
  }

  lemma LookupAnswers(index: PrefixIndex, events: seq<Event>, q: History, usable: Usable, r: Lookup)
    requires index.LookupOk(q, usable, r) && Sensible(events)
    requires r.checkpoint != 0 ==> index.NewestOfTies(q, usable, r) && index.Deepest(q, usable, r)
    requires index.Retained() == Plain(events) && Names(index.Log()) == Order(events)
    ensures Answers(events, q, usable, r)
  {
    var m := Plain(events);
    if r.checkpoint != 0 {
      forall c | c in m && usable(c) && FullMatch(q, m[c]) ensures NoBetter(events, r, c) {
        MatchIsNoBetter(index, events, q, usable, r, c);
      }
    }
  }

  /** Over every run of operations on a fresh index, a lookup reports the longest history shared
      with anything retained, and the deepest usable full match, of equals the one admitted last. */
  method Serve(metadataBytes: nat, ops: seq<Op>, q: History, usable: Usable)
    returns (index: PrefixIndex?, r: Option<Lookup>, ghost events: seq<Event>)
    ensures index != null <==> 0 < metadataBytes / SLOT_BYTES <= INDEX_SPACE
    ensures index != null ==> |events| == |ops| && Sensible(events) && forall i :: 0 <= i < |ops| ==>
      Explains(ops[i], events[i])
    ensures index != null ==> (r.Some? <==> ValidImages(q.images)) && (r.Some? ==> Answers(events, q, usable, r.value))
  {
    r, events := None, [];
    index := PrefixIndex.Create(metadataBytes);
    if index == null { return; }
    events := Run(index, ops);
    r := index.FindLongest(q, usable);
    if r.Some? { LookupAnswers(index, events, q, usable, r.value); }
  }
}
