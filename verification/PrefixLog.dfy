/** The records of an index as a list, newest first: which checkpoints it holds, what is known of
    each, and how whole runs of admissions and removals order them. */
module PrefixLog {
  import opened Prompts
  import opened PrefixArena
  import opened PrefixRecords
  import opened PrefixThinning

  /** A record without its links. */
  datatype Mark = Mark(
    checkpoint: CheckpointId, order: nat, sources: set<Source>, priority: Priority,
    cacheClass: CacheClass, referenceBit: bool, reuse: nat)

  function MarkOf(x: Record): Mark {
    Mark(x.checkpoint, x.order, x.sources, x.priority, x.cacheClass, x.referenceBit, x.reuse)
  }

  predicate UnpromotedMark(m: Mark) { m.cacheClass == Probationary && m.sources == {Periodic} }

  /** What an admission starts a checkpoint with. */
  function NewMark(c: CheckpointId, source: Source, order: nat): Mark {
    Mark(c, order, {source}, Normal, Probationary, false, 0)
  }

  function LogOf(s: seq<Slot>, g: Shape): (r: seq<Mark>)
    ensures |r| == |g.active| && forall i :: 0 <= i < |r| ==> r[i] == MarkOf(RecordOf(s, g.active[i]))
  {
    seq(|g.active|, i requires 0 <= i < |g.active| => MarkOf(RecordOf(s, g.active[i])))
  }

  /** The log without checkpoint `c`. */
  function Dropped(log: seq<Mark>, c: CheckpointId): seq<Mark> {
    if log == [] then []
    else (if log[0].checkpoint == c then [] else [log[0]]) + Dropped(log[1..], c)
  }

  function Thinned(log: seq<Mark>, gone: Option<CheckpointId>): seq<Mark> {
    if gone.Some? then Dropped(log, gone.value) else log
  }

  /** The log once `source` is among the triggers of checkpoint `c`. */
  function Merged(log: seq<Mark>, c: CheckpointId, source: Source): (r: seq<Mark>)
    ensures |r| == |log|
  {
    seq(|log|, i requires 0 <= i < |log| =>
      if log[i].checkpoint == c then log[i].(sources := log[i].sources + {source}) else log[i])
  }

  lemma {:induction false} DroppedAbsent(log: seq<Mark>, c: CheckpointId)
    requires forall i :: 0 <= i < |log| ==> log[i].checkpoint != c
    ensures Dropped(log, c) == log
    decreases |log|
  {
    if log != [] { DroppedAbsent(log[1..], c); }
  }

  lemma {:induction false} DroppedOne(log: seq<Mark>, i: nat)
    requires i < |log| && forall j :: 0 <= j < |log| && j != i ==> log[j].checkpoint != log[i].checkpoint
    ensures Dropped(log, log[i].checkpoint) == log[..i] + log[i + 1..]
    decreases |log|
  {
    if i == 0 {
      DroppedAbsent(log[1..], log[0].checkpoint);
    } else {
      DroppedOne(log[1..], i - 1);
      assert log[..i] == [log[0]] + log[1..][..i - 1] && log[1..][i..] == log[i + 1..];
    }
  }

  // ------------------------------------------------------------------ arena steps

  lemma LogKept(s: seq<Slot>, g: Shape, s': seq<Slot>, g': Shape)
    requires KeptRecords(s, g, s', g') && g'.active == g.active
    ensures LogOf(s', g') == LogOf(s, g)
  {
    forall i | 0 <= i < |g.active| ensures LogOf(s', g')[i] == LogOf(s, g)[i] {
      assert KeptRecord(s, g, s', g', g.active[i]);
    }
  }

  lemma LogWithRecord(s: seq<Slot>, g: Shape, next: nat, bare: int, node: nat, checkpoint: CheckpointId, h: History,
      source: Source)
    requires RecordFits(s, g, next, bare, node, checkpoint, h)
    ensures LogOf(WithRecord(s, g, node, checkpoint, source, next), RecordShape(g, node, checkpoint, h))
         == [NewMark(checkpoint, source, next)] + LogOf(s, g)
  {
    RecordSlots(s, g, next, bare, node, checkpoint, h, source);
    var s', g' := WithRecord(s, g, node, checkpoint, source, next), RecordShape(g, node, checkpoint, h);
    forall i | 0 < i < |g'.active| ensures LogOf(s', g')[i] == LogOf(s, g)[i - 1] {
      InActive(s, g, next, g.active[i - 1]);
    }
  }

  /** Adding a trigger to one record adds it to that checkpoint of the log. */
  lemma LogMerged(s: seq<Slot>, g: Shape, next: nat, k: nat, source: Source)
    requires ActiveOk(s, g, next) && k in g.active && k < |s| && s[k].RecordSlot?
    ensures var x := s[k].record;
      LogOf(s[k := RecordSlot(x.(sources := x.sources + {source}))], g) == Merged(LogOf(s, g), x.checkpoint, source)
  {
    var place: nat :| place < |g.active| && g.active[place] == k;
    forall a | 0 <= a < |g.active| && a != place
      ensures g.active[a] != k && LogOf(s, g)[a].checkpoint != s[k].record.checkpoint
    {
      LogApart(s, g, next, a, place);
    }
  }

  /** No checkpoint stands in the log twice. */
  lemma LogApart(s: seq<Slot>, g: Shape, next: nat, a: nat, i: nat)
    requires ActiveOk(s, g, next) && a < |g.active| && i < |g.active| && a != i
    ensures LogOf(s, g)[a].checkpoint != LogOf(s, g)[i].checkpoint
  {
    assert ActiveOrder(s, g, a, i) && ActiveOrder(s, g, i, a);
  }

  /** Records that keep their marks while one leaves the list keep their part of the log. */
  lemma LogWithout(s: seq<Slot>, g: Shape, s': seq<Slot>, g': Shape, i: nat)
    requires i < |g.active| && g'.active == Without(g.active, i) && KeptRecords(s, g, s', g')
    ensures LogOf(s', g') == LogOf(s, g)[..i] + LogOf(s, g)[i + 1..]
  {
    forall a | 0 <= a < |g'.active| ensures LogOf(s', g')[a] == LogOf(s, g)[if a < i then a else a + 1] {
      assert KeptRecord(s, g, s', g', g'.active[a]);
    }
  }

  lemma LogErased(s: seq<Slot>, g: Shape, next: nat, i: nat, n: nat, j: nat)
    requires Rep(s, g, next, NoIndex) && Placed(s, g, i, n, j)
    ensures LogOf(Erased(s, g, i, n, j), ErasedShape(s, g, i, n, j))
      == Dropped(LogOf(s, g), RecordOf(s, g.active[i]).checkpoint)
  {
    var log, s', g' := LogOf(s, g), Erased(s, g, i, n, j), ErasedShape(s, g, i, n, j);
    forall a | 0 <= a < |log| && a != i ensures log[a].checkpoint != log[i].checkpoint {
      LogApart(s, g, next, a, i);
    }
    DroppedOne(log, i);
    EraseKeeps(s, g, next, i, n, j);
    LogWithout(s, g, s', g', i);
  }

  /** Newer records come first. */
  lemma LogDescends(s: seq<Slot>, g: Shape, next: nat, bare: int)
    requires Rep(s, g, next, bare)
    ensures forall i, j :: 0 <= i < j < |LogOf(s, g)| ==>
      LogOf(s, g)[i].order > LogOf(s, g)[j].order && LogOf(s, g)[i].checkpoint != LogOf(s, g)[j].checkpoint
  {
    forall i, j | 0 <= i < j < |g.active|
      ensures LogOf(s, g)[i].order > LogOf(s, g)[j].order && LogOf(s, g)[i].checkpoint != LogOf(s, g)[j].checkpoint
    {
      assert ActiveOrder(s, g, i, j);
    }
  }
}
