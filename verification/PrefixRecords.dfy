/** Records entering and leaving the arena, and nodes leaving it. */
module PrefixRecords {
  import opened Prompts
  import opened PrefixArena

  function Without(list: seq<nat>, i: nat): (r: seq<nat>)
    requires i < |list|
    ensures |r| == |list| - 1
    ensures forall k :: 0 <= k < |r| ==> r[k] == if k < i then list[k] else list[k + 1]
  {
    list[..i] + list[i + 1..]
  }

  lemma WithoutKeeps(list: seq<nat>, i: nat)
    requires i < |list|
    ensures forall m: nat :: m in list && m != list[i] ==> m in Without(list, i)
  {
    forall m: nat | m in list && m != list[i] ensures m in Without(list, i) {
      var a: nat :| a < |list| && list[a] == m;
      assert Without(list, i)[if a < i then a else a - 1] == m;
    }
  }

  lemma InActive(s: seq<Slot>, g: Shape, next: nat, k: nat)
    requires ActiveOk(s, g, next) && k in g.active
    ensures k < |s| && s[k].RecordSlot?
  {
    var i: nat :| i < |g.active| && g.active[i] == k;
    assert ActiveAt(s, g, i);
  }

  // ----------------------------------------------------------------- a new record

  function NewRecord(g: Shape, s: seq<Slot>, node: nat, checkpoint: CheckpointId, source: Source, order: nat): Record {
    Record(checkpoint, node, Head(RecsOf(g, node)), Head(g.active), NoIndex, {source}, Normal, Probationary, false,
        order, 0)
  }

  /** The slots after `allocate_record`. */
  function WithRecord(s: seq<Slot>, g: Shape, node: nat, checkpoint: CheckpointId, source: Source,
      order: nat): seq<Slot>
    requires |g.free| >= 1 && g.free[0] < |s| && node < |s| && (g.active != [] ==> g.active[0] < |s|)
  {
    var r := g.free[0];
    var written := s[r := RecordSlot(NewRecord(g, s, node, checkpoint, source, order))];
    var linked := if g.active == [] then written
                  else written[g.active[0] := RecordSlot(RecordOf(written, g.active[0]).(previousActive := r))];
    linked[node := NodeSlot(NodeOf(linked, node).(firstRecord := r))]
  }

  function RecordShape(g: Shape, node: nat, checkpoint: CheckpointId, h: History): Shape
    requires |g.free| >= 1
  {
    g.(free := g.free[1..], active := [g.free[0]] + g.active, recs := g.recs[node := [g.free[0]] + RecsOf(g, node)],
       histories := g.histories[checkpoint := h])
  }

  ghost predicate RecordFits(s: seq<Slot>, g: Shape, next: nat, bare: int, node: nat, checkpoint: CheckpointId,
      h: History) {
    && Rep(s, g, next, bare) && (bare == NoIndex || bare == node)
    && node in g.paths && node != 0 && node < |s| && |g.free| >= 1 && g.free[0] < |s|
    && (g.active != [] ==> g.active[0] < |s|)
    && checkpoint > 0 && (forall k: nat :: k in g.active ==> RecordOf(s, k).checkpoint != checkpoint)
    && ValidImages(h.images) && Safe(h.images, |h.tokens|) && PathOf(h) == g.paths[node]
  }

  lemma RecordSlots(s: seq<Slot>, g: Shape, next: nat, bare: int, node: nat, checkpoint: CheckpointId, h: History,
      source: Source)
    requires RecordFits(s, g, next, bare, node, checkpoint, h)
    ensures var r, s' := g.free[0], WithRecord(s, g, node, checkpoint, source, next);
      && |s'| == |s| && r !in g.paths && r !in g.active && r !in g.owners && r != node
      && s[r].FreeSlot? && s[node].NodeSlot?
      && s'[r] == RecordSlot(NewRecord(g, s, node, checkpoint, source, next))
      && s'[node] == NodeSlot(NodeOf(s, node).(firstRecord := r))
      && (g.active != [] ==> g.active[0] != r && g.active[0] != node && s[g.active[0]].RecordSlot?
                             && s'[g.active[0]] == RecordSlot(RecordOf(s, g.active[0]).(previousActive := r)))
      && (forall k: nat :: k < |s| && k != r && k != node && !(g.active != [] && k == g.active[0]) ==> s'[k] == s[k])
  {
    assert FreeAt(s, g, 0) && NodeKind(s, g, node) && ActiveAt(s, g, 0);
    NotFree(s, g, next, bare, g.free[0]);
  }

  /** Nodes keep all but the head of the record list of `node`. */
  lemma RecordNodes(s: seq<Slot>, g: Shape, next: nat, bare: int, node: nat, checkpoint: CheckpointId, h: History,
      source: Source)
    requires RecordFits(s, g, next, bare, node, checkpoint, h)
    ensures var r, s' := g.free[0], WithRecord(s, g, node, checkpoint, source, next);
      && (forall k: nat :: NodeOf(s', k) == if k == node then NodeOf(s, k).(firstRecord := r) else NodeOf(s, k))
      && (forall k: nat :: NodeKind(s', RecordShape(g, node, checkpoint, h), k))
      && (forall k: nat | k in g.paths :: LabelOf(s', k) == LabelOf(s, k))
  {
    RecordSlots(s, g, next, bare, node, checkpoint, h, source);
    var s', g' := WithRecord(s, g, node, checkpoint, source, next), RecordShape(g, node, checkpoint, h);
    forall k: nat ensures NodeKind(s', g', k) { assert NodeKind(s, g, k); }
    forall k: nat | k in g.paths ensures LabelOf(s', k) == LabelOf(s, k) { assert ImageAt(s, g, k); }
  }

  lemma RecordImages(s: seq<Slot>, g: Shape, next: nat, bare: int, node: nat, checkpoint: CheckpointId, h: History,
      source: Source)
    requires RecordFits(s, g, next, bare, node, checkpoint, h)
    ensures ImagesOk(WithRecord(s, g, node, checkpoint, source, next), RecordShape(g, node, checkpoint, h))
  {
    RecordSlots(s, g, next, bare, node, checkpoint, h, source);
    RecordNodes(s, g, next, bare, node, checkpoint, h, source);
    var s', g' := WithRecord(s, g, node, checkpoint, source, next), RecordShape(g, node, checkpoint, h);
    forall m: nat ensures ImageAt(s', g', m) { assert ImageAt(s, g, m); }
    forall k: nat ensures ImageOwned(s', g', k) { assert ImageOwned(s, g, k); }
  }

  lemma RecordTree(s: seq<Slot>, g: Shape, next: nat, bare: int, node: nat, checkpoint: CheckpointId, h: History,
      source: Source)
    requires RecordFits(s, g, next, bare, node, checkpoint, h)
    ensures TreeOk(WithRecord(s, g, node, checkpoint, source, next), RecordShape(g, node, checkpoint, h), NoIndex)
  {
    RecordNodes(s, g, next, bare, node, checkpoint, h, source);
    var s', g' := WithRecord(s, g, node, checkpoint, source, next), RecordShape(g, node, checkpoint, h);
    forall m: nat ensures NodeAt(s', g', m) { assert NodeAt(s, g, m); }
    forall m: nat ensures ParentAt(s', g', m) { assert ParentAt(s, g, m); }
    forall m: nat ensures FilledAt(g', NoIndex, m) { assert FilledAt(g, bare, m); }
    forall j: nat, k: nat ensures PathOnce(g', j, k) { assert PathOnce(g, j, k); }
    forall m: nat, i: nat ensures KidAt(s', g', m, i) { assert KidAt(s, g, m, i); }
    forall m: nat, i: nat, j: nat ensures KidOnce(g', m, i, j) { assert KidOnce(g, m, i, j); }
  }

  /** The new record, and what the head of the list before it keeps. */
  lemma RecordKept(s: seq<Slot>, g: Shape, next: nat, bare: int, node: nat, checkpoint: CheckpointId, h: History,
      source: Source)
    requires RecordFits(s, g, next, bare, node, checkpoint, h)
    ensures var r, s', head := g.free[0], WithRecord(s, g, node, checkpoint, source, next), Head(g.active);
      && r !in g.active && r < |s'| && s'[r] == RecordSlot(NewRecord(g, s, node, checkpoint, source, next))
      && (forall k: nat | k != r :: RecordOf(s', k) == if k == head then RecordOf(s, k).(previousActive := r)
            else RecordOf(s, k))
  {
    RecordSlots(s, g, next, bare, node, checkpoint, h, source);
  }

  lemma RecordActiveAt(s: seq<Slot>, g: Shape, next: nat, bare: int, node: nat, checkpoint: CheckpointId, h: History,
      source: Source, i: nat)
    requires RecordFits(s, g, next, bare, node, checkpoint, h)
    ensures ActiveAt(WithRecord(s, g, node, checkpoint, source, next), RecordShape(g, node, checkpoint, h), i)
  {
    RecordSlots(s, g, next, bare, node, checkpoint, h, source);
    if i > 0 {
      var j: nat := i - 1;
      assert ActiveAt(s, g, j) && ActiveOrder(s, g, 0, j);
    }
  }

  lemma RecordNamed(s: seq<Slot>, g: Shape, next: nat, bare: int, node: nat, checkpoint: CheckpointId, h: History,
      source: Source, c: CheckpointId)
    requires RecordFits(s, g, next, bare, node, checkpoint, h)
    ensures NamedAt(WithRecord(s, g, node, checkpoint, source, next), RecordShape(g, node, checkpoint, h), c)
  {
    RecordKept(s, g, next, bare, node, checkpoint, h, source);
    var r, s', g' := g.free[0], WithRecord(s, g, node, checkpoint, source, next), RecordShape(g, node, checkpoint, h);
    assert NamedAt(s, g, c);
    if c == checkpoint {
      assert r in g'.active && RecordOf(s', r).checkpoint == c;
    } else if c in g.histories {
      var k :| k in g.active && RecordOf(s, k).checkpoint == c;
      assert k in g'.active && RecordOf(s', k).checkpoint == c;
    }
  }

  lemma RecordOrder(s: seq<Slot>, g: Shape, next: nat, bare: int, node: nat, checkpoint: CheckpointId, h: History,
      source: Source, i: nat, j: nat)
    requires RecordFits(s, g, next, bare, node, checkpoint, h)
    ensures ActiveOrder(WithRecord(s, g, node, checkpoint, source, next), RecordShape(g, node, checkpoint, h), i, j)
  {
    RecordKept(s, g, next, bare, node, checkpoint, h, source);
    if 0 < i < j { assert ActiveOrder(s, g, i - 1, j - 1); }
    if 0 == i < j <= |g.active| { assert RecordAt(s, g, next, g.active[j - 1]); }
  }

  lemma RecordRecordAt(s: seq<Slot>, g: Shape, next: nat, bare: int, node: nat, checkpoint: CheckpointId, h: History,
      source: Source, k: nat)
    requires RecordFits(s, g, next, bare, node, checkpoint, h)
    ensures RecordAt(WithRecord(s, g, node, checkpoint, source, next), RecordShape(g, node, checkpoint, h), next + 1, k)
  {
    RecordKept(s, g, next, bare, node, checkpoint, h, source);
    assert RecordAt(s, g, next, k);
  }

  lemma RecordActive(s: seq<Slot>, g: Shape, next: nat, bare: int, node: nat, checkpoint: CheckpointId, h: History,
      source: Source)
    requires RecordFits(s, g, next, bare, node, checkpoint, h)
    ensures ActiveOk(WithRecord(s, g, node, checkpoint, source, next), RecordShape(g, node, checkpoint, h), next + 1)
  {
    RecordSlots(s, g, next, bare, node, checkpoint, h, source);
    var s', g' := WithRecord(s, g, node, checkpoint, source, next), RecordShape(g, node, checkpoint, h);
    var later := next + 1;
    forall i: nat ensures ActiveAt(s', g', i) {
      RecordActiveAt(s, g, next, bare, node, checkpoint, h, source, i);
    }
    forall k: nat ensures ActiveCovers(s', g', k) { assert ActiveCovers(s, g, k); }
    forall k: nat ensures RecordAt(s', g', later, k) {
      RecordRecordAt(s, g, next, bare, node, checkpoint, h, source, k);
    }
    forall c ensures NamedAt(s', g', c) { RecordNamed(s, g, next, bare, node, checkpoint, h, source, c); }
    forall i: nat, j: nat ensures ActiveOrder(s', g', i, j) {
      RecordOrder(s, g, next, bare, node, checkpoint, h, source, i, j);
    }
  }

  lemma RecordRecAt(s: seq<Slot>, g: Shape, next: nat, bare: int, node: nat, checkpoint: CheckpointId, h: History,
      source: Source, m: nat, i: nat)
    requires RecordFits(s, g, next, bare, node, checkpoint, h)
    ensures RecAt(WithRecord(s, g, node, checkpoint, source, next), RecordShape(g, node, checkpoint, h), m, i)
  {
    RecordKept(s, g, next, bare, node, checkpoint, h, source);
    assert RecAt(s, g, m, if m == node && i > 0 then i - 1 else i);
  }

  lemma RecordRecOrder(s: seq<Slot>, g: Shape, next: nat, bare: int, node: nat, checkpoint: CheckpointId, h: History,
      source: Source, m: nat, i: nat, j: nat)
    requires RecordFits(s, g, next, bare, node, checkpoint, h)
    ensures RecOrder(WithRecord(s, g, node, checkpoint, source, next), RecordShape(g, node, checkpoint, h), m, i, j)
  {
    RecordKept(s, g, next, bare, node, checkpoint, h, source);
    if i < j < |RecsOf(RecordShape(g, node, checkpoint, h), m)| {
      if m == node {
        assert RecAt(s, g, m, j - 1);
        assert RecordAt(s, g, next, RecsOf(g, m)[j - 1]);
        if i > 0 { assert RecAt(s, g, m, i - 1) && RecOrder(s, g, m, i - 1, j - 1); }
      } else {
        assert RecOrder(s, g, m, i, j) && RecAt(s, g, m, i) && RecAt(s, g, m, j);
      }
    }
  }

  lemma RecordRecs(s: seq<Slot>, g: Shape, next: nat, bare: int, node: nat, checkpoint: CheckpointId, h: History,
      source: Source)
    requires RecordFits(s, g, next, bare, node, checkpoint, h)
    ensures RecsOk(WithRecord(s, g, node, checkpoint, source, next), RecordShape(g, node, checkpoint, h))
  {
    var s', g' := WithRecord(s, g, node, checkpoint, source, next), RecordShape(g, node, checkpoint, h);
    forall m: nat, i: nat ensures RecAt(s', g', m, i) {
      RecordRecAt(s, g, next, bare, node, checkpoint, h, source, m, i);
    }
    forall m: nat, i: nat, j: nat ensures RecOrder(s', g', m, i, j) {
      RecordRecOrder(s, g, next, bare, node, checkpoint, h, source, m, i, j);
    }
  }

  /** A new record heads both its lists; no node is bare any more. */
  lemma AddRecord(s: seq<Slot>, g: Shape, next: nat, bare: int, node: nat, checkpoint: CheckpointId, h: History,
      source: Source)
    requires RecordFits(s, g, next, bare, node, checkpoint, h)
    ensures Rep(WithRecord(s, g, node, checkpoint, source, next), RecordShape(g, node, checkpoint, h), next + 1,
      NoIndex)
  {
    RecordSlots(s, g, next, bare, node, checkpoint, h, source);
    var s', g' := WithRecord(s, g, node, checkpoint, source, next), RecordShape(g, node, checkpoint, h);
    RecordTree(s, g, next, bare, node, checkpoint, h, source);
    RecordImages(s, g, next, bare, node, checkpoint, h, source);
    RecordActive(s, g, next, bare, node, checkpoint, h, source);
    RecordRecs(s, g, next, bare, node, checkpoint, h, source);
    forall i: nat ensures FreeAt(s', g', i) { assert FreeAt(s, g, i + 1) && FreeOnce(g, 0, i + 1); }
    forall i: nat, j: nat ensures FreeOnce(g', i, j) { assert FreeOnce(g, i + 1, j + 1); }
    forall k: nat ensures FreeCovers(s', g', k) {
      assert FreeCovers(s, g, k);
      if k in g.free && k != g.free[0] {
        var i: nat :| i < |g.free| && g.free[i] == k;
        assert g'.free[i - 1] == k;
      }
    }
  }


  // ------------------------------------------------------------- removing a record

  /** Where record `i` of the active list stands in the list of its node. */
  ghost predicate Placed(s: seq<Slot>, g: Shape, i: nat, n: nat, j: nat) {
    i < |g.active| && n == RecordOf(s, g.active[i]).node && j < |RecsOf(g, n)| && RecsOf(g, n)[j] == g.active[i]
  }

  /** Slot `m` after record `g.active[i]` has left both its lists. */
  function ErasedSlot(s: seq<Slot>, g: Shape, i: nat, n: nat, j: nat, m: nat): Slot
    requires i < |g.active| && j < |RecsOf(g, n)| && m < |s|
  {
    var x := RecordOf(s, g.active[i]);
    if m == g.active[i] then FreeSlot(Head(g.free))
    else if m == n then (if j == 0 then NodeSlot(NodeOf(s, n).(firstRecord := x.nextAtNode)) else s[m])
    else if s[m].RecordSlot? then
      var y := s[m].record;
      RecordSlot(y.(nextAtNode := if j > 0 && m == RecsOf(g, n)[j - 1] then x.nextAtNode else y.nextAtNode,
                    nextActive := if i > 0 && m == g.active[i - 1] then x.nextActive else y.nextActive,
                    previousActive := if i + 1 < |g.active|
                        && m == g.active[i + 1] then x.previousActive else y.previousActive))
    else s[m]
  }

  function Erased(s: seq<Slot>, g: Shape, i: nat, n: nat, j: nat): (r: seq<Slot>)
    requires i < |g.active| && j < |RecsOf(g, n)|
    ensures |r| == |s| && forall m: nat :: m < |s| ==> r[m] == ErasedSlot(s, g, i, n, j, m)
  {
    seq(|s|, m requires 0 <= m < |s| => ErasedSlot(s, g, i, n, j, m))
  }

  function ErasedShape(s: seq<Slot>, g: Shape, i: nat, n: nat, j: nat): Shape
    requires i < |g.active| && j < |RecsOf(g, n)|
  {
    g.(histories := g.histories - {RecordOf(s, g.active[i]).checkpoint}, free := [g.active[i]] + g.free,
        active := Without(g.active, i), recs := g.recs[n := Without(RecsOf(g, n), j)])
  }

  lemma ActiveOnce(s: seq<Slot>, g: Shape, next: nat, i: nat, j: nat)
    requires ActiveOk(s, g, next) && i < |g.active| && j < |g.active| && g.active[i] == g.active[j]
    ensures i == j
  {
    assert ActiveOrder(s, g, i, j) && ActiveOrder(s, g, j, i);
  }

  lemma RecOnce(s: seq<Slot>, g: Shape, n: nat, i: nat, j: nat)
    requires RecsOk(s, g) && i < |RecsOf(g, n)| && j < |RecsOf(g, n)| && RecsOf(g, n)[i] == RecsOf(g, n)[j]
    ensures i == j
  {
    assert RecOrder(s, g, n, i, j) && RecOrder(s, g, n, j, i);
  }

  /** Records other than the erased one keep all but their links. */
  lemma ErasedKept(s: seq<Slot>, g: Shape, next: nat, i: nat, n: nat, j: nat)
    requires Rep(s, g, next, NoIndex) && Placed(s, g, i, n, j)
    ensures n < |s| && s[n].NodeSlot? && g.active[i] < |s| && s[g.active[i]].RecordSlot? && n in g.paths && n != 0
    ensures var s', x := Erased(s, g, i, n, j), RecordOf(s, g.active[i]);
      && (forall m: nat :: NodeOf(s', m) == if m == n
         && j == 0 then NodeOf(s, n).(firstRecord := x.nextAtNode) else NodeOf(s, m))
      && (forall m: nat :: m in g.active && m != g.active[i] ==>
            RecordOf(s', m) == RecordOf(s, m).(nextAtNode := RecordOf(s', m).nextAtNode,
                nextActive := RecordOf(s', m).nextActive,
                                               previousActive := RecordOf(s', m).previousActive))
  {
    assert ActiveAt(s, g, i) && RecordAt(s, g, next, g.active[i]) && NodeKind(s, g, n);
  }

  lemma ErasedTree(s: seq<Slot>, g: Shape, next: nat, i: nat, n: nat, j: nat)
    requires Rep(s, g, next, NoIndex) && Placed(s, g, i, n, j)
    ensures TreeOk(Erased(s, g, i, n, j), ErasedShape(s, g, i, n, j), n)
    ensures ImagesOk(Erased(s, g, i, n, j), ErasedShape(s, g, i, n, j))
  {
    ErasedKept(s, g, next, i, n, j);
    var s', g' := Erased(s, g, i, n, j), ErasedShape(s, g, i, n, j);
    forall k: nat | k < |s| && s[k].ImageSlot? ensures s'[k] == s[k] {}
    forall k: nat ensures NodeKind(s', g', k) { assert NodeKind(s, g, k); }
    forall k: nat | k in g.paths ensures LabelOf(s', k) == LabelOf(s, k) { assert ImageAt(s, g, k); }
    forall m: nat ensures NodeAt(s', g', m) { assert NodeAt(s, g, m) && RecAt(s, g, n, 0); }
    forall m: nat ensures ParentAt(s', g', m) { assert ParentAt(s, g, m); }
    forall m: nat ensures FilledAt(g', n, m) { assert FilledAt(g, NoIndex, m); }
    forall a: nat, b: nat ensures PathOnce(g', a, b) { assert PathOnce(g, a, b); }
    forall m: nat, a: nat ensures KidAt(s', g', m, a) { assert KidAt(s, g, m, a); }
    forall m: nat, a: nat, b: nat ensures KidOnce(g', m, a, b) { assert KidOnce(g, m, a, b); }
    forall m: nat ensures ImageAt(s', g', m) { assert ImageAt(s, g, m); }
    forall k: nat ensures ImageOwned(s', g', k) { assert ImageOwned(s, g, k); }
  }

  lemma ErasedActiveAt(s: seq<Slot>, g: Shape, next: nat, i: nat, n: nat, j: nat, a: nat)
    requires Rep(s, g, next, NoIndex) && Placed(s, g, i, n, j)
    ensures ActiveAt(Erased(s, g, i, n, j), ErasedShape(s, g, i, n, j), a)
  {
    ErasedKept(s, g, next, i, n, j);
    var b := if a < i then a else a + 1;
    if b < |g.active| {
      assert ActiveAt(s, g, i) && ActiveAt(s, g, b);
      OtherPlace(s, g, next, i, b);
    }
  }

  /** Another place of the list holds another record than this one and its neighbours. */
  lemma OtherPlace(s: seq<Slot>, g: Shape, next: nat, i: nat, b: nat)
    requires ActiveOk(s, g, next) && i < |g.active| && b < |g.active| && b != i
    ensures g.active[b] != g.active[i]
    ensures i > 0 ==> (g.active[b] == g.active[i - 1] <==> b == i - 1)
    ensures i + 1 < |g.active| ==> (g.active[b] == g.active[i + 1] <==> b == i + 1)
  {
    if g.active[b] == g.active[i] { ActiveOnce(s, g, next, b, i); }
    if i > 0 && g.active[b] == g.active[i - 1] { ActiveOnce(s, g, next, b, i - 1); }
    if i + 1 < |g.active| && g.active[b] == g.active[i + 1] { ActiveOnce(s, g, next, b, i + 1); }
  }

  lemma ErasedOrder(s: seq<Slot>, g: Shape, next: nat, i: nat, n: nat, j: nat, a: nat, b: nat)
    requires Rep(s, g, next, NoIndex) && Placed(s, g, i, n, j)
    ensures ActiveOrder(Erased(s, g, i, n, j), ErasedShape(s, g, i, n, j), a, b)
  {
    ErasedKept(s, g, next, i, n, j);
    var k := g.active[i];
    if a < b < |g.active| - 1 {
      var a', b' := if a < i then a else a + 1, if b < i then b else b + 1;
      assert ActiveOrder(s, g, a', b');
      OtherPlace(s, g, next, i, a');
      OtherPlace(s, g, next, i, b');
    }
  }

  lemma ErasedActive(s: seq<Slot>, g: Shape, next: nat, i: nat, n: nat, j: nat)
    requires Rep(s, g, next, NoIndex) && Placed(s, g, i, n, j)
    ensures ActiveOk(Erased(s, g, i, n, j), ErasedShape(s, g, i, n, j), next)
  {
    var s', g', k := Erased(s, g, i, n, j), ErasedShape(s, g, i, n, j), g.active[i];
    forall a: nat ensures ActiveAt(s', g', a) { ErasedActiveAt(s, g, next, i, n, j, a); }
    forall m: nat ensures ActiveCovers(s', g', m) {
      assert ActiveCovers(s, g, m);
      if m in g.active && m != k {
        var a: nat :| a < |g.active| && g.active[a] == m;
        assert g'.active[if a < i then a else a - 1] == m;
      }
    }
    forall a: nat, b: nat ensures ActiveOrder(s', g', a, b) { ErasedOrder(s, g, next, i, n, j, a, b); }
    forall m: nat ensures RecordAt(s', g', next, m) { ErasedRecordAt(s, g, next, i, n, j, m); }
    forall c ensures NamedAt(s', g', c) { ErasedNamed(s, g, next, i, n, j, c); }
  }

  lemma ErasedNamed(s: seq<Slot>, g: Shape, next: nat, i: nat, n: nat, j: nat, c: CheckpointId)
    requires Rep(s, g, next, NoIndex) && Placed(s, g, i, n, j)
    ensures NamedAt(Erased(s, g, i, n, j), ErasedShape(s, g, i, n, j), c)
  {
    ErasedKept(s, g, next, i, n, j);
    var s', g' := Erased(s, g, i, n, j), ErasedShape(s, g, i, n, j);
    assert NamedAt(s, g, c);
    if c in g'.histories {
      var k :| k in g.active && RecordOf(s, k).checkpoint == c;
      var a: nat :| a < |g.active| && g.active[a] == k;
      assert g'.active[if a < i then a else a - 1] == k;
      assert k in g'.active && RecordOf(s', k).checkpoint == c;
    }
  }

  lemma CheckpointOnce(s: seq<Slot>, g: Shape, next: nat, i: nat, m: nat)
    requires ActiveOk(s, g, next) && i < |g.active| && m in g.active && m != g.active[i]
    ensures RecordOf(s, m).checkpoint != RecordOf(s, g.active[i]).checkpoint
  {
    var a: nat :| a < |g.active| && g.active[a] == m;
    assert ActiveOrder(s, g, a, i) && ActiveOrder(s, g, i, a);
  }

  lemma ErasedRecordAt(s: seq<Slot>, g: Shape, next: nat, i: nat, n: nat, j: nat, m: nat)
    requires Rep(s, g, next, NoIndex) && Placed(s, g, i, n, j)
    ensures RecordAt(Erased(s, g, i, n, j), ErasedShape(s, g, i, n, j), next, m)
  {
    ErasedKept(s, g, next, i, n, j);
    var s', g', k := Erased(s, g, i, n, j), ErasedShape(s, g, i, n, j), g.active[i];
    assert RecordAt(s, g, next, m);
    if m in g'.active {
      var a: nat :| a < |g'.active| && g'.active[a] == m;
      var b := if a < i then a else a + 1;
      if g.active[b] == k { ActiveOnce(s, g, next, b, i); }
      CheckpointOnce(s, g, next, i, m);
      if RecordOf(s, m).node == n {
        var c: nat :| c < |RecsOf(g, n)| && RecsOf(g, n)[c] == m;
        assert RecsOf(g', n)[if c < j then c else c - 1] == m;
      }
    }
  }

  lemma ErasedRecs(s: seq<Slot>, g: Shape, next: nat, i: nat, n: nat, j: nat)
    requires Rep(s, g, next, NoIndex) && Placed(s, g, i, n, j)
    ensures RecsOk(Erased(s, g, i, n, j), ErasedShape(s, g, i, n, j))
  {
    ErasedKept(s, g, next, i, n, j);
    var s', g' := Erased(s, g, i, n, j), ErasedShape(s, g, i, n, j);
    forall m: nat, a: nat ensures RecAt(s', g', m, a) { ErasedRecAt(s, g, next, i, n, j, m, a); }
    forall m: nat, a: nat, b: nat ensures RecOrder(s', g', m, a, b) {
      var a', b' := if m == n && a >= j then a + 1 else a, if m == n && b >= j then b + 1 else b;
      if a < b < |RecsOf(g', m)| {
        assert RecOrder(s, g, m, a', b') && RecAt(s, g, m, a') && RecAt(s, g, m, b');
        if m == n {
          if RecsOf(g, n)[a'] == g.active[i] { RecOnce(s, g, n, a', j); }
          if RecsOf(g, n)[b'] == g.active[i] { RecOnce(s, g, n, b', j); }
        }
      }
    }
  }

  /** The lists of other nodes keep their links. */
  lemma ErasedOtherRec(s: seq<Slot>, g: Shape, next: nat, i: nat, n: nat, j: nat, m: nat, a: nat)
    requires Rep(s, g, next, NoIndex) && Placed(s, g, i, n, j) && m != n
    ensures RecAt(Erased(s, g, i, n, j), ErasedShape(s, g, i, n, j), m, a)
  {
    ErasedKept(s, g, next, i, n, j);
    if a < |RecsOf(g, m)| {
      assert RecAt(s, g, m, a);
      if j > 0 { assert RecAt(s, g, n, j - 1); }
      InActive(s, g, next, RecsOf(g, m)[a]);
      WithoutKeeps(g.active, i);
    }
  }

  /** The list of the erased record's node closes the gap. */
  lemma ErasedOwnRec(s: seq<Slot>, g: Shape, next: nat, i: nat, n: nat, j: nat, a: nat)
    requires Rep(s, g, next, NoIndex) && Placed(s, g, i, n, j)
    ensures RecAt(Erased(s, g, i, n, j), ErasedShape(s, g, i, n, j), n, a)
  {
    ErasedKept(s, g, next, i, n, j);
    var b := if a >= j then a + 1 else a;
    if b < |RecsOf(g, n)| {
      assert RecAt(s, g, n, b) && RecAt(s, g, n, j);
      var r := RecsOf(g, n)[b];
      if r == g.active[i] { RecOnce(s, g, n, b, j); }
      if j > 0 && r == RecsOf(g, n)[j - 1] { RecOnce(s, g, n, b, j - 1); }
      InActive(s, g, next, r);
      WithoutKeeps(g.active, i);
    }
  }

  lemma ErasedRecAt(s: seq<Slot>, g: Shape, next: nat, i: nat, n: nat, j: nat, m: nat, a: nat)
    requires Rep(s, g, next, NoIndex) && Placed(s, g, i, n, j)
    ensures RecAt(Erased(s, g, i, n, j), ErasedShape(s, g, i, n, j), m, a)
  {
    if m == n { ErasedOwnRec(s, g, next, i, n, j, a); } else { ErasedOtherRec(s, g, next, i, n, j, m, a); }
  }

  lemma ErasedFree(s: seq<Slot>, g: Shape, next: nat, i: nat, n: nat, j: nat)
    requires Rep(s, g, next, NoIndex) && Placed(s, g, i, n, j)
    ensures FreeOk(Erased(s, g, i, n, j), ErasedShape(s, g, i, n, j))
  {
    ErasedKept(s, g, next, i, n, j);
    var s', g' := Erased(s, g, i, n, j), ErasedShape(s, g, i, n, j);
    forall a: nat ensures FreeAt(s', g', a) { if a > 0 { assert FreeAt(s, g, a - 1); } }
    forall a: nat, b: nat ensures FreeOnce(g', a, b) {
      if 0 < a < b { assert FreeOnce(g, a - 1, b - 1); }
      if 0 == a < b { assert FreeAt(s, g, b - 1); }
    }
    forall k: nat ensures FreeCovers(s', g', k) {
      assert FreeCovers(s, g, k);
      if k in g.free {
        var a: nat :| a < |g.free| && g.free[a] == k;
        assert g'.free[a + 1] == k;
      }
    }
  }

  /** A record leaves its lists; only its node may be left bare. */
  lemma EraseRecordRep(s: seq<Slot>, g: Shape, next: nat, i: nat, n: nat, j: nat)
    requires Rep(s, g, next, NoIndex) && Placed(s, g, i, n, j)
    ensures Rep(Erased(s, g, i, n, j), ErasedShape(s, g, i, n, j), next, n)
  {
    ErasedTree(s, g, next, i, n, j);
    ErasedActive(s, g, next, i, n, j);
    ErasedRecs(s, g, next, i, n, j);
    ErasedFree(s, g, next, i, n, j);
  }

  // -------------------------------------------------------- changing a record's marks

  /** `y` differs from `x` in nothing the arena's structure depends on. */
  predicate SameLinks(x: Record, y: Record) {
    && y.checkpoint == x.checkpoint && y.node == x.node && y.order == x.order
    && y.nextAtNode == x.nextAtNode && y.nextActive == x.nextActive && y.previousActive == x.previousActive
  }

  lemma MarkRecord(s: seq<Slot>, g: Shape, next: nat, k: nat, y: Record)
    requires Rep(s, g, next, NoIndex) && k < |s| && s[k].RecordSlot? && SameLinks(s[k].record, y)
    ensures Rep(s[k := RecordSlot(y)], g, next, NoIndex)
  {
    var s' := s[k := RecordSlot(y)];
    MarkTree(s, g, next, k, y);
    forall m: nat ensures SameLinks(RecordOf(s, m), RecordOf(s', m)) {}
    forall i: nat ensures FreeAt(s', g, i) { assert FreeAt(s, g, i); }
    forall m: nat ensures FreeCovers(s', g, m) { assert FreeCovers(s, g, m); }
    forall i: nat ensures ActiveAt(s', g, i) { assert ActiveAt(s, g, i); }
    forall m: nat ensures ActiveCovers(s', g, m) { assert ActiveCovers(s, g, m); }
    forall i: nat, j: nat ensures ActiveOrder(s', g, i, j) { assert ActiveOrder(s, g, i, j); }
    forall m: nat ensures RecordAt(s', g, next, m) { assert RecordAt(s, g, next, m); }
    forall c ensures NamedAt(s', g, c) { assert NamedAt(s, g, c); }
    forall n: nat, i: nat ensures RecAt(s', g, n, i) { assert RecAt(s, g, n, i); }
    forall n: nat, i: nat, j: nat ensures RecOrder(s', g, n, i, j) { assert RecOrder(s, g, n, i, j); }
  }

  lemma MarkTree(s: seq<Slot>, g: Shape, next: nat, k: nat, y: Record)
    requires Rep(s, g, next, NoIndex) && k < |s| && s[k].RecordSlot?
    ensures TreeOk(s[k := RecordSlot(y)], g, NoIndex) && ImagesOk(s[k := RecordSlot(y)], g)
  {
    var s' := s[k := RecordSlot(y)];
    forall m: nat ensures NodeOf(s', m) == NodeOf(s, m) && LabelOf(s', m) == LabelOf(s, m) {}
    forall m: nat ensures NodeKind(s', g, m) { assert NodeKind(s, g, m); }
    forall m: nat ensures NodeAt(s', g, m) { assert NodeAt(s, g, m); }
    forall m: nat ensures ParentAt(s', g, m) { assert ParentAt(s, g, m); }
    forall n: nat, i: nat ensures KidAt(s', g, n, i) { assert KidAt(s, g, n, i); }
    forall m: nat ensures ImageAt(s', g, m) { assert ImageAt(s, g, m); }
    forall m: nat ensures ImageOwned(s', g, m) { assert ImageOwned(s, g, m); }
  }
}
