/** Periodic checkpoints on a path, in the order a climb from a node meets them. */
module PrefixThinning {
  import opened Prompts
  import opened PrefixArena
  import opened PrefixRecords
  import opened PrefixPrune
  import opened PrefixLookups

  // At most this many unpromoted periodic checkpoints are kept on an idle path.
  const MAX_PERIODIC: nat := 8

  predicate Unpromoted(x: Record) { x.cacheClass == Probationary && x.sources == {Periodic} }

  function Unpromoteds(s: seq<Slot>, recs: seq<nat>): (r: seq<nat>)
    ensures forall k :: k in r <==> k in recs && Unpromoted(RecordOf(s, k))
  {
    if recs == [] then []
    else if Unpromoted(RecordOf(s, recs[0])) then [recs[0]] + Unpromoteds(s, recs[1..])
    else Unpromoteds(s, recs[1..])
  }

  lemma {:induction false} UnpromotedsSnoc(s: seq<Slot>, recs: seq<nat>, k: nat)
    ensures Unpromoteds(s, recs + [k]) == Unpromoteds(s, recs) + if Unpromoted(RecordOf(s, k)) then [k] else []
  {
    if recs == [] {
      assert (recs + [k])[1..] == [];
    } else {
      assert (recs + [k])[1..] == recs[1..] + [k];
      UnpromotedsSnoc(s, recs[1..], k);
    }
  }

  /** Unpromoted periodic records from node `n` up to the root, newest first at each node. */
  function Climb(s: seq<Slot>, g: Shape, n: nat): seq<nat>
    decreases |PathAt(g, n)|
  {
    var here := Unpromoteds(s, RecsOf(g, n));
    var p := NodeOf(s, n).parent;
    if n == 0 || p < 0 || |PathAt(g, p)| >= |PathAt(g, n)| then here else here + Climb(s, g, p)
  }

  predicate OnPath(s: seq<Slot>, g: Shape, path: seq<Label>, k: nat) {
    k in g.active && Unpromoted(RecordOf(s, k)) && PathAt(g, RecordOf(s, k).node) <= path
  }

  /** All unpromoted periodic records on a path. */
  function Periodics(s: seq<Slot>, g: Shape, path: seq<Label>): set<nat> {
    set k | k in g.active && OnPath(s, g, path, k)
  }

  /** `a` comes before `b` when climbing: deeper, or as deep and newer. */
  predicate Ahead(s: seq<Slot>, g: Shape, a: nat, b: nat) {
    var d, e := |PathAt(g, RecordOf(s, a).node)|, |PathAt(g, RecordOf(s, b).node)|;
    d > e || (d == e && RecordOf(s, a).order > RecordOf(s, b).order)
  }

  ghost predicate Descending(s: seq<Slot>, g: Shape, list: seq<nat>) {
    forall i, j :: 0 <= i < j < |list| ==> Ahead(s, g, list[i], list[j])
  }

  lemma {:induction false} UnpromotedsDescend(s: seq<Slot>, g: Shape, n: nat, recs: seq<nat>)
    requires forall i, j :: 0 <= i < j < |recs| ==> RecordOf(s, recs[i]).order > RecordOf(s, recs[j]).order
    requires forall i :: 0 <= i < |recs| ==> RecordOf(s, recs[i]).node == n
    ensures Descending(s, g, Unpromoteds(s, recs))
  {
    if recs != [] {
      UnpromotedsDescend(s, g, n, recs[1..]);
      var rest := Unpromoteds(s, recs[1..]);
      forall k | k in rest ensures Ahead(s, g, recs[0], k) {
        var j: nat :| j < |recs[1..]| && recs[1..][j] == k;
        assert recs[j + 1] == k;
      }
    }
  }

  lemma NodeRecords(s: seq<Slot>, g: Shape, next: nat, bare: int, n: nat)
    requires Rep(s, g, next, bare)
    ensures Descending(s, g, Unpromoteds(s, RecsOf(g, n)))
    ensures forall k :: k in RecsOf(g, n) <==> k in g.active && RecordOf(s, k).node == n
  {
    forall i, j | 0 <= i < j < |RecsOf(g, n)|
      ensures RecordOf(s, RecsOf(g, n)[i]).order > RecordOf(s, RecsOf(g, n)[j]).order {
      assert RecOrder(s, g, n, i, j);
    }
    forall i: nat | i < |RecsOf(g, n)| ensures RecordOf(s, RecsOf(g, n)[i]).node == n && RecsOf(g, n)[i] in g.active {
      assert RecAt(s, g, n, i);
    }
    forall k | k in g.active && RecordOf(s, k).node == n ensures k in RecsOf(g, n) { assert RecordAt(s, g, next, k); }
    UnpromotedsDescend(s, g, n, RecsOf(g, n));
  }

  /** The climb meets exactly the periodic records of the path, deepest and newest first. */
  lemma {:induction false} ClimbMeets(s: seq<Slot>, g: Shape, next: nat, bare: int, n: nat)
    requires Rep(s, g, next, bare) && n in g.paths
    ensures forall k :: k in Climb(s, g, n) <==> OnPath(s, g, g.paths[n], k)
    ensures Descending(s, g, Climb(s, g, n))
    decreases |g.paths[n]|
  {
    NodeRecords(s, g, next, bare, n);
    assert RootAt(s, g) && ParentAt(s, g, n);
    if n == 0 {
      forall k ensures k in Climb(s, g, n) <==> OnPath(s, g, g.paths[n], k) { RecordPath(s, g, next, bare, n, k); }
    } else {
      var p := NodeOf(s, n).parent;
      ClimbMeets(s, g, next, bare, p);
      forall k ensures k in Climb(s, g, n) <==> OnPath(s, g, g.paths[n], k) {
        RecordPath(s, g, next, bare, n, k);
        PathStep(PathAt(g, RecordOf(s, k).node), g.paths[p], LabelOf(s, n));
      }
      ClimbOrder(s, g, n, p);
    }
  }

  lemma PathStep(a: seq<Label>, b: seq<Label>, edge: Label)
    ensures a <= b + [edge] <==> a <= b || a == b + [edge]
  {
    if a <= b + [edge] && |a| <= |b| { assert (b + [edge])[..|a|] == b[..|a|]; }
    if a <= b { assert (b + [edge])[..|a|] == b[..|a|]; }
  }

  /** A record's path is node `n`'s exactly when it is at node `n`. */
  lemma RecordPath(s: seq<Slot>, g: Shape, next: nat, bare: int, n: nat, k: nat)
    requires Rep(s, g, next, bare) && n in g.paths
    ensures k in g.active ==> (PathAt(g, RecordOf(s, k).node) == g.paths[n] <==> RecordOf(s, k).node == n)
    ensures k in g.active ==> PathAt(g, RecordOf(s, k).node) != []
  {
    if k in g.active {
      assert RecordAt(s, g, next, k) && PathOnce(g, RecordOf(s, k).node, n) && ParentAt(s, g, RecordOf(s, k).node);
    }
  }

  lemma ClimbOrder(s: seq<Slot>, g: Shape, n: nat, p: nat)
    requires n in g.paths && p in g.paths && n != 0 && NodeOf(s, n).parent == p && |g.paths[p]| < |g.paths[n]|
    requires Descending(s, g, Unpromoteds(s, RecsOf(g, n))) && Descending(s, g, Climb(s, g, p))
    requires forall k :: k in Unpromoteds(s, RecsOf(g, n)) ==> RecordOf(s, k).node == n
    requires forall k :: k in Climb(s, g, p) ==> |PathAt(g, RecordOf(s, k).node)| <= |g.paths[p]|
    ensures Descending(s, g, Climb(s, g, n))
  {
    var here, above := Unpromoteds(s, RecsOf(g, n)), Climb(s, g, p);
    forall i, j | 0 <= i < j < |here + above| ensures Ahead(s, g, (here + above)[i], (here + above)[j]) {
      if i < |here| <= j {
        assert (here + above)[i] in here && (here + above)[j] in above;
      }
    }
  }

  /** How many periodic records a path holds. */
  lemma ClimbCount(s: seq<Slot>, g: Shape, next: nat, bare: int, n: nat)
    requires Rep(s, g, next, bare) && n in g.paths
    ensures |Climb(s, g, n)| == |Periodics(s, g, g.paths[n])|
  {
    ClimbMeets(s, g, next, bare, n);
    var list := Climb(s, g, n);
    forall i, j | 0 <= i < j < |list| ensures list[i] != list[j] { assert Ahead(s, g, list[i], list[j]); }
    ElementsCount(list);
    assert Elements(list) == Periodics(s, g, g.paths[n]);
  }

  // ------------------------------------------------------------ records that stay

  predicate SameMarks(x: Record, y: Record) {
    && y.checkpoint == x.checkpoint && y.node == x.node && y.order == x.order && y.sources == x.sources
    && y.priority == x.priority && y.cacheClass == x.cacheClass && y.referenceBit == x.referenceBit
    && y.reuse == x.reuse
  }

  /** Record `k` is still the same record at the same path. */
  predicate KeptRecord(s: seq<Slot>, g: Shape, s': seq<Slot>, g': Shape, k: nat) {
    k in g'.active ==>
      k in g.active && SameMarks(RecordOf(s, k), RecordOf(s', k))
          && PathAt(g', RecordOf(s', k).node) == PathAt(g, RecordOf(s, k).node)
  }

  ghost predicate KeptRecords(s: seq<Slot>, g: Shape, s': seq<Slot>, g': Shape) {
    forall k :: KeptRecord(s, g, s', g', k)
  }

  lemma KeptSelf(s: seq<Slot>, g: Shape)
    ensures KeptRecords(s, g, s, g)
  {
    forall k ensures KeptRecord(s, g, s, g, k) {}
  }

  lemma KeptTrans(s: seq<Slot>, g: Shape, s1: seq<Slot>, g1: Shape, s2: seq<Slot>, g2: Shape)
    requires KeptRecords(s, g, s1, g1) && KeptRecords(s1, g1, s2, g2)
    ensures KeptRecords(s, g, s2, g2)
  {
    forall k ensures KeptRecord(s, g, s2, g2, k) {
      assert KeptRecord(s, g, s1, g1, k) && KeptRecord(s1, g1, s2, g2, k);
    }
  }

  lemma KeptPeriodics(s: seq<Slot>, g: Shape, s': seq<Slot>, g': Shape, path: seq<Label>)
    requires KeptRecords(s, g, s', g')
    ensures Periodics(s', g', path) == set k | k in Periodics(s, g, path) && k in g'.active
  {
    forall k | k in g'.active ensures OnPath(s', g', path, k) <==> OnPath(s, g, path, k) {
      assert KeptRecord(s, g, s', g', k);
    }
  }

  /** The records on a longer path whose extra labels have no nodes are those of the shorter one. */
  lemma PeriodicsMatched(s: seq<Slot>, g: Shape, next: nat, bare: int, path: seq<Label>, matched: nat)
    requires Rep(s, g, next, bare) && matched <= |path| && (matched < |path| ==> !HasNode(g, path[..matched + 1]))
    ensures Periodics(s, g, path) == Periodics(s, g, path[..matched])
  {
    forall k | k in g.active ensures PathAt(g, RecordOf(s, k).node) <= path <==>
        PathAt(g, RecordOf(s, k).node) <= path[..matched] {
      assert RecordAt(s, g, next, k);
      var n := RecordOf(s, k).node;
      var p := g.paths[n];
      if p <= path && matched < |p| {
        assert p[..matched + 1] == path[..matched + 1];
        PrefixClosed(s, g, next, bare, n, matched + 1);
      }
      if p <= path && |p| <= matched { assert path[..matched][..|p|] == path[..|p|]; }
    }
  }

  lemma AddNodeKeeps(s: seq<Slot>, g: Shape, next: nat, bare: int, parent: nat, token: Token, image: Option<Image>)
    requires NodeFits(s, g, next, bare, parent, token, image)
    ensures KeptRecords(s, g, WithNode(s, g, parent, token, image), NodeShape(g, parent, token, image))
  {
    NewSlots(s, g, next, bare, parent, token, image);
    var s', g' := WithNode(s, g, parent, token, image), NodeShape(g, parent, token, image);
    assert NodeKind(s, g, parent);
    forall k ensures KeptRecord(s, g, s', g', k) { assert RecordAt(s, g, next, k); }
  }

  lemma EraseKeeps(s: seq<Slot>, g: Shape, next: nat, i: nat, n: nat, j: nat)
    requires Rep(s, g, next, NoIndex) && Placed(s, g, i, n, j)
    ensures KeptRecords(s, g, Erased(s, g, i, n, j), ErasedShape(s, g, i, n, j))
    ensures forall k: nat :: k in Without(g.active, i) <==> k in g.active && k != g.active[i]
  {
    ErasedKept(s, g, next, i, n, j);
    WithoutKeeps(g.active, i);
    var s', g' := Erased(s, g, i, n, j), ErasedShape(s, g, i, n, j);
    forall k | k in g'.active ensures k in g.active && k != g.active[i] {
      var a: nat :| a < |g'.active| && g'.active[a] == k;
      var b := if a < i then a else a + 1;
      if g.active[b] == g.active[i] { ActiveOnce(s, g, next, b, i); }
    }
    forall k ensures KeptRecord(s, g, s', g', k) {}
  }

  lemma PruneKeeps(s: seq<Slot>, g: Shape, next: nat, n: nat, p: nat, j: nat)
    requires Rep(s, g, next, n) && Empty(s, g, n, p, j)
    ensures KeptRecords(s, g, Pruned(s, g, n, p, j), PrunedShape(s, g, n, p, j))
  {
    PruneSlots(s, g, next, n, p, j);
    var s', g' := Pruned(s, g, n, p, j), PrunedShape(s, g, n, p, j);
    forall k ensures KeptRecord(s, g, s', g', k) {
      assert RecordAt(s, g, next, k);
      if k in g.active { InActive(s, g, next, k); }
    }
  }

  /** A new record joins the path it is admitted at. */
  lemma AddRecordPeriodics(s: seq<Slot>, g: Shape, next: nat, bare: int, node: nat, checkpoint: CheckpointId,
      h: History, source: Source)
    requires RecordFits(s, g, next, bare, node, checkpoint, h)
    ensures var s', g' := WithRecord(s, g, node, checkpoint, source, next), RecordShape(g, node, checkpoint, h);
      && g.free[0] !in g.active
      && Periodics(s', g', g.paths[node])
         == Periodics(s, g, g.paths[node]) + (if source == Periodic then {g.free[0]} else {})
      && (forall k :: k in g.active ==> RecordOf(s', k).checkpoint == RecordOf(s, k).checkpoint)
  {
    RecordSlots(s, g, next, bare, node, checkpoint, h, source);
    var s', g' := WithRecord(s, g, node, checkpoint, source, next), RecordShape(g, node, checkpoint, h);
    forall k | k in g.active ensures SameMarks(RecordOf(s, k), RecordOf(s', k))
        && OnPath(s', g', g.paths[node], k) == OnPath(s, g, g.paths[node], k) {
      InActive(s, g, next, k);
    }
    assert OnPath(s', g', g.paths[node], g.free[0]) <==> source == Periodic;
  }

  // ------------------------------------------------------------- which one is thinned

  /** Alternating older candidates first; the last one is never thinned. */
  function ThinOrder(): (r: seq<nat>)
    ensures |r| == 8 && forall i: nat :: i < 8 ==> i in r
  {
    [0, 2, 4, 6, 1, 3, 5, 7]
  }

  function Eligible(eligible: Option<Usable>, c: CheckpointId): bool { eligible.Some? ==> eligible.value(c) }

  /** The checkpoints of a climb, oldest and shallowest first. */
  function OldestFirst(s: seq<Slot>, list: seq<nat>): (r: seq<CheckpointId>)
    ensures |r| == |list| && forall i :: 0 <= i < |r| ==> r[i] == RecordOf(s, list[|list| - 1 - i]).checkpoint
  {
    seq(|list|, i requires 0 <= i < |list| => RecordOf(s, list[|list| - 1 - i]).checkpoint)
  }

  /** Place `place` of the thinning order is the first eligible one. */
  predicate FirstEligible(oldest: seq<CheckpointId>, eligible: Option<Usable>, place: nat) {
    && |oldest| == 9 && place < 8 && Eligible(eligible, oldest[ThinOrder()[place]])
    && forall i: nat :: i < place ==> !Eligible(eligible, oldest[ThinOrder()[i]])
  }

  /** A path may be thinned back after one more periodic checkpoint. */
  ghost predicate Thinnable(s: seq<Slot>, earlier: set<nat>, eligible: Option<Usable>) {
    && |earlier| <= MAX_PERIODIC
    && (|earlier| == MAX_PERIODIC ==> exists k :: k in earlier && Eligible(eligible, RecordOf(s, k).checkpoint))
  }

  /** The climb after an admission: the new record, then those `earlier` on the path. */
  ghost predicate Lists(list: seq<nat>, earlier: set<nat>) {
    list != [] && list[0] !in earlier && |list| == |earlier| + 1 && forall k :: k in list <==>
        k in earlier || k == list[0]
  }

  /** Some record `earlier` on the path is eligible and named `c`. */
  ghost predicate Names(s: seq<Slot>, earlier: set<nat>, eligible: Option<Usable>, c: CheckpointId) {
    Eligible(eligible, c) && exists k :: k in earlier && RecordOf(s, k).checkpoint == c
  }

  /** The thinned record is never the new one. */
  lemma ThinnedIsEarlier(s: seq<Slot>, g: Shape, list: seq<nat>, earlier: set<nat>, eligible: Option<Usable>,
      place: nat) returns (k: nat)
    requires Lists(list, earlier) && Descending(s, g, list) && FirstEligible(OldestFirst(s, list), eligible, place)
    ensures k in earlier && RecordOf(s, k).checkpoint == OldestFirst(s, list)[ThinOrder()[place]]
    ensures Names(s, earlier, eligible, RecordOf(s, k).checkpoint)
  {
    k := list[8 - ThinOrder()[place]];
    assert k in list && Ahead(s, g, list[0], k);
  }

  ghost predicate NoneEligible(s: seq<Slot>, list: seq<nat>, eligible: Option<Usable>) {
    forall i :: 1 <= i < |list| ==> !Eligible(eligible, RecordOf(s, list[i]).checkpoint)
  }

  lemma NotThinnable(s: seq<Slot>, list: seq<nat>, earlier: set<nat>, eligible: Option<Usable>)
    requires Lists(list, earlier) && |earlier| == MAX_PERIODIC && NoneEligible(s, list, eligible)
    ensures !Thinnable(s, earlier, eligible)
  {
    forall k | k in earlier ensures !Eligible(eligible, RecordOf(s, k).checkpoint) {
      var i :| 0 <= i < |list| && list[i] == k;
    }
  }

  /** One record fewer on the path. */
  lemma CountDrops(s: seq<Slot>, g: Shape, s': seq<Slot>, g': Shape, path: seq<Label>, k: nat)
    requires KeptRecords(s, g, s', g') && k in Periodics(s, g, path) && k !in g'.active
    ensures |Periodics(s', g', path)| <= |Periodics(s, g, path)| - 1
  {
    KeptPeriodics(s, g, s', g', path);
    SubsetCount(Periodics(s', g', path), Periodics(s, g, path) - {k});
  }

  lemma CountStays(s: seq<Slot>, g: Shape, s': seq<Slot>, g': Shape, path: seq<Label>)
    requires KeptRecords(s, g, s', g')
    ensures |Periodics(s', g', path)| <= |Periodics(s, g, path)|
  {
    KeptPeriodics(s, g, s', g', path);
    SubsetCount(Periodics(s', g', path), Periodics(s, g, path));
  }

  /** `c` is the checkpoint at place `place` of the thinning order. */
  predicate ThinnedBy(oldest: seq<CheckpointId>, eligible: Option<Usable>, place: nat, c: CheckpointId) {
    FirstEligible(oldest, eligible, place) && c == oldest[ThinOrder()[place]]
  }

  lemma NamesRetained(s: seq<Slot>, g: Shape, next: nat, path: seq<Label>, eligible: Option<Usable>, c: CheckpointId)
    requires Rep(s, g, next, NoIndex) && Names(s, Periodics(s, g, path), eligible, c)
    ensures c in g.histories
  {
    var k :| k in Periodics(s, g, path) && RecordOf(s, k).checkpoint == c;
    assert RecordAt(s, g, next, k);
  }

  // ------------------------------------------------------------- slots a history needs

  /** Images from the `i`th on that start in `from .. to`. */
  function Starting(images: Images, i: nat, from: nat, to: nat): nat
    decreases |images| - i
  {
    if i >= |images| then 0
    else Starting(images, i + 1, from, to) + if from <= images[i].begin < to then 1 else 0
  }

  lemma {:induction false} NoImageFrom(images: Images, position: nat, i: nat)
    requires forall k :: i <= k < |images| ==> images[k].begin != position
    ensures ImageFrom(images, position, i) == None
    decreases |images| - i
  {
    if i < |images| { NoImageFrom(images, position, i + 1); }
  }

  lemma {:induction false} StartingStep(images: Images, i: nat, from: nat, to: nat)
    requires ValidImages(images) && from < to && i <= |images|
    ensures Starting(images, i, from, to) == Starting(images, i, from + 1, to) + if ImageFrom(images, from, i).Some?
      then 1 else 0
    decreases |images| - i
  {
    if i < |images| {
      StartingStep(images, i + 1, from, to);
      if images[i].begin == from { NoImageFrom(images, from, i + 1); }
    }
  }

  lemma {:induction false} StartingNone(images: Images, i: nat, from: nat)
    ensures Starting(images, i, from, from) == 0
    decreases |images| - i
  {
    if i < |images| { StartingNone(images, i + 1, from); }
  }

  /** Slots that admitting `h` takes when it matches down to `matched`. */
  function SlotsNeeded(h: History, matched: nat): nat
    requires matched <= |h.tokens|
  {
    |h.tokens| - matched + Starting(h.images, 0, matched, |h.tokens|) + 1
  }
}
