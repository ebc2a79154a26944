/** Empty nodes leaving the trie. */
module PrefixPrune {
  import opened Prompts
  import opened PrefixArena
  import opened PrefixRecords

  /** Node `n` is empty and stands at place `j` among the children of `p`. */
  ghost predicate Empty(s: seq<Slot>, g: Shape, n: nat, p: nat, j: nat) {
    && n in g.paths && n != 0 && KidsOf(g, n) == [] && RecsOf(g, n) == []
    && NodeOf(s, n).parent == p && j < |KidsOf(g, p)| && KidsOf(g, p)[j] == n
  }

  /** The slots after the node and its image are released. */
  function PrunedSlot(s: seq<Slot>, g: Shape, n: nat, p: nat, j: nat, m: nat): Slot
    requires j < |KidsOf(g, p)| && m < |s|
  {
    var x := NodeOf(s, n);
    if m == n then FreeSlot(Head(g.free))
    else if m == x.imageSlot then FreeSlot(n)
    else if j == 0 && m == p then NodeSlot(NodeOf(s, p).(firstChild := x.nextSibling))
    else if j > 0 && m == KidsOf(g, p)[j - 1] then NodeSlot(NodeOf(s, m).(nextSibling := x.nextSibling))
    else s[m]
  }

  function Pruned(s: seq<Slot>, g: Shape, n: nat, p: nat, j: nat): (r: seq<Slot>)
    requires j < |KidsOf(g, p)|
    ensures |r| == |s| && forall m: nat :: m < |s| ==> r[m] == PrunedSlot(s, g, n, p, j, m)
  {
    seq(|s|, m requires 0 <= m < |s| => PrunedSlot(s, g, n, p, j, m))
  }

  function PrunedShape(s: seq<Slot>, g: Shape, n: nat, p: nat, j: nat): Shape
    requires j < |KidsOf(g, p)|
  {
    var image := NodeOf(s, n).imageSlot;
    g.(free := (if image >= 0 then [image, n] else [n]) + g.free,
       kids := g.kids[p := Without(KidsOf(g, p), j)] - {n}, recs := g.recs - {n}, paths := g.paths - {n},
       owners := if image >= 0 then g.owners - {image} else g.owners)
  }

  lemma KidUnique(s: seq<Slot>, g: Shape, bare: int, n: nat, i: nat, j: nat)
    requires TreeOk(s, g, bare) && i < |KidsOf(g, n)| && j < |KidsOf(g, n)| && KidsOf(g, n)[i] == KidsOf(g, n)[j]
    ensures i == j
  {
    assert KidOnce(g, n, i, j) && KidOnce(g, n, j, i);
  }

  /** What a prune touches. */
  lemma PruneSlots(s: seq<Slot>, g: Shape, next: nat, n: nat, p: nat, j: nat)
    requires Rep(s, g, next, n) && Empty(s, g, n, p, j)
    ensures n < |s| && s[n].NodeSlot? && p < |s| && s[p].NodeSlot? && p in g.paths && p != n
    ensures var image := NodeOf(s, n).imageSlot;
      image == NoIndex || (0 <= image < |s| && s[image].ImageSlot? && image in g.owners && g.owners[image] == n
          && image !in g.paths && image !in g.active)
    ensures j > 0 ==> KidsOf(g, p)[j - 1] in g.paths && KidsOf(g, p)[j - 1] != n && KidsOf(g, p)[j - 1] != p
    ensures forall m: nat :: m < |s| && s[m].RecordSlot? ==> Pruned(s, g, n, p, j)[m] == s[m]
  {
    assert NodeKind(s, g, n) && ParentAt(s, g, n) && NodeKind(s, g, p) && ImageAt(s, g, n);
    assert |g.paths[n]| == |g.paths[p]| + 1;
    var image := NodeOf(s, n).imageSlot;
    if image >= 0 {
      assert NodeKind(s, g, image);
      forall i: nat | i < |g.active| ensures g.active[i] != image { assert ActiveAt(s, g, i); }
    }
    if j > 0 {
      var q := KidsOf(g, p)[j - 1];
      assert KidAt(s, g, p, j - 1) && ParentAt(s, g, q) && NodeKind(s, g, q);
      assert |g.paths[q]| == |g.paths[p]| + 1;
      if q == n { KidUnique(s, g, n, p, j - 1, j); }
    }
  }

  /** Nodes that stay keep their contents, but for one link. */
  lemma PruneKept(s: seq<Slot>, g: Shape, next: nat, n: nat, p: nat, j: nat, m: nat)
    requires Rep(s, g, next, n) && Empty(s, g, n, p, j) && m in g.paths && m != n
    ensures var s', x := Pruned(s, g, n, p, j), NodeOf(s, n);
      && NodeOf(s', m) == (if j == 0 && m == p then NodeOf(s, m).(firstChild := x.nextSibling)
                           else if j > 0 && m == KidsOf(g, p)[j - 1] then NodeOf(s, m).(nextSibling := x.nextSibling)
                               else NodeOf(s, m))
      && LabelOf(s', m) == LabelOf(s, m)
  {
    PruneSlots(s, g, next, n, p, j);
    assert NodeKind(s, g, m) && ImageAt(s, g, m) && ImageAt(s, g, n);
    var slot := NodeOf(s, m).imageSlot;
    if slot >= 0 {
      assert NodeKind(s, g, slot) && NodeKind(s, g, p);
      if j > 0 { assert NodeKind(s, g, KidsOf(g, p)[j - 1]); }
    }
  }

  /** An empty node has no children anywhere. */
  lemma NoChild(s: seq<Slot>, g: Shape, next: nat, n: nat, p: nat, j: nat, m: nat)
    requires Rep(s, g, next, n) && Empty(s, g, n, p, j) && m in g.paths && m != 0
    ensures NodeOf(s, m).parent != n
  {
    assert ParentAt(s, g, m);
  }

  lemma PruneParents(s: seq<Slot>, g: Shape, next: nat, n: nat, p: nat, j: nat, m: nat)
    requires Rep(s, g, next, n) && Empty(s, g, n, p, j)
    ensures ParentAt(Pruned(s, g, n, p, j), PrunedShape(s, g, n, p, j), m)
  {
    PruneSlots(s, g, next, n, p, j);
    var g' := PrunedShape(s, g, n, p, j);
    assert ParentAt(s, g, m);
    if m in g'.paths && m != 0 {
      PruneKept(s, g, next, n, p, j, m);
      NoChild(s, g, next, n, p, j, m);
      if NodeOf(s, m).parent == p {
        var i: nat :| i < |KidsOf(g, p)| && KidsOf(g, p)[i] == m;
        assert Without(KidsOf(g, p), j)[if i < j then i else i - 1] == m;
      }
    }
  }

  lemma PruneKids(s: seq<Slot>, g: Shape, next: nat, n: nat, p: nat, j: nat, m: nat, i: nat)
    requires Rep(s, g, next, n) && Empty(s, g, n, p, j)
    ensures KidAt(Pruned(s, g, n, p, j), PrunedShape(s, g, n, p, j), m, i)
  {
    PruneSlots(s, g, next, n, p, j);
    var g' := PrunedShape(s, g, n, p, j);
    if i < |KidsOf(g', m)| {
      var i' := if m == p && i >= j then i + 1 else i;
      assert KidAt(s, g, m, i') && KidAt(s, g, p, j);
      var c := KidsOf(g, m)[i'];
      if c == n { KidUnique(s, g, n, p, i', j); }
      PruneKept(s, g, next, n, p, j, c);
      if j > 0 && c == KidsOf(g, p)[j - 1] {
        assert KidAt(s, g, p, j - 1);
        KidUnique(s, g, n, p, i', j - 1);
      }
    }
  }

  lemma PruneNodes(s: seq<Slot>, g: Shape, next: nat, n: nat, p: nat, j: nat, m: nat)
    requires Rep(s, g, next, n) && Empty(s, g, n, p, j)
    ensures NodeAt(Pruned(s, g, n, p, j), PrunedShape(s, g, n, p, j), m)
    ensures FilledAt(PrunedShape(s, g, n, p, j), p, m)
  {
    PruneSlots(s, g, next, n, p, j);
    var g' := PrunedShape(s, g, n, p, j);
    assert NodeAt(s, g, m) && FilledAt(g, n, m);
    if m in g'.paths {
      PruneKept(s, g, next, n, p, j, m);
      if m == p { assert KidAt(s, g, p, j) && KidAt(s, g, p, 0); }
    }
  }

  lemma PruneKind(s: seq<Slot>, g: Shape, next: nat, n: nat, p: nat, j: nat, k: nat)
    requires Rep(s, g, next, n) && Empty(s, g, n, p, j)
    ensures NodeKind(Pruned(s, g, n, p, j), PrunedShape(s, g, n, p, j), k)
  {
    PruneSlots(s, g, next, n, p, j);
    assert NodeKind(s, g, k) && NodeKind(s, g, p);
    if k in g.paths && k != n { PruneKept(s, g, next, n, p, j, k); }
    if j > 0 { assert NodeKind(s, g, KidsOf(g, p)[j - 1]); }
  }

  lemma PruneTree(s: seq<Slot>, g: Shape, next: nat, n: nat, p: nat, j: nat)
    requires Rep(s, g, next, n) && Empty(s, g, n, p, j)
    ensures TreeOk(Pruned(s, g, n, p, j), PrunedShape(s, g, n, p, j), p)
  {
    PruneSlots(s, g, next, n, p, j);
    var s', g' := Pruned(s, g, n, p, j), PrunedShape(s, g, n, p, j);
    PruneKept(s, g, next, n, p, j, 0);
    forall k: nat ensures NodeKind(s', g', k) { PruneKind(s, g, next, n, p, j, k); }
    forall m: nat ensures NodeAt(s', g', m) && FilledAt(g', p, m) { PruneNodes(s, g, next, n, p, j, m); }
    forall m: nat ensures ParentAt(s', g', m) { PruneParents(s, g, next, n, p, j, m); }
    forall a: nat, b: nat ensures PathOnce(g', a, b) { assert PathOnce(g, a, b); }
    forall m: nat, i: nat ensures KidAt(s', g', m, i) { PruneKids(s, g, next, n, p, j, m, i); }
    forall m: nat, a: nat, b: nat ensures KidOnce(g', m, a, b) {
      assert KidOnce(g, m, if m == p && a >= j then a + 1 else a, if m == p && b >= j then b + 1 else b);
    }
  }

  lemma PruneImages(s: seq<Slot>, g: Shape, next: nat, n: nat, p: nat, j: nat)
    requires Rep(s, g, next, n) && Empty(s, g, n, p, j)
    ensures ImagesOk(Pruned(s, g, n, p, j), PrunedShape(s, g, n, p, j))
  {
    PruneSlots(s, g, next, n, p, j);
    var s', g' := Pruned(s, g, n, p, j), PrunedShape(s, g, n, p, j);
    forall m: nat ensures ImageAt(s', g', m) {
      assert ImageAt(s, g, m);
      if m in g'.paths {
        PruneKept(s, g, next, n, p, j, m);
        var slot := NodeOf(s, m).imageSlot;
        if slot >= 0 {
          assert NodeKind(s, g, slot) && NodeKind(s, g, p) && NodeKind(s, g, n);
          if j > 0 { assert NodeKind(s, g, KidsOf(g, p)[j - 1]); }
        }
      }
    }
    forall k: nat ensures ImageOwned(s', g', k) {
      assert ImageOwned(s, g, k) && NodeKind(s, g, k) && NodeKind(s, g, p);
      if j > 0 { assert NodeKind(s, g, KidsOf(g, p)[j - 1]); }
      if k in g'.owners { PruneKept(s, g, next, n, p, j, g.owners[k]); }
    }
  }

  lemma PruneLists(s: seq<Slot>, g: Shape, next: nat, n: nat, p: nat, j: nat)
    requires Rep(s, g, next, n) && Empty(s, g, n, p, j)
    ensures ActiveOk(Pruned(s, g, n, p, j), PrunedShape(s, g, n, p, j), next)
    ensures RecsOk(Pruned(s, g, n, p, j), PrunedShape(s, g, n, p, j))
  {
    PruneSlots(s, g, next, n, p, j);
    var s', g' := Pruned(s, g, n, p, j), PrunedShape(s, g, n, p, j);
    forall k: nat | k in g.active ensures RecordOf(s', k) == RecordOf(s, k) && k < |s| && s[k].RecordSlot? {
      var i: nat :| i < |g.active| && g.active[i] == k;
      assert ActiveAt(s, g, i);
    }
    forall i: nat ensures ActiveAt(s', g', i) { assert ActiveAt(s, g, i); }
    forall k: nat ensures ActiveCovers(s', g', k) { assert ActiveCovers(s, g, k); }
    forall a: nat, b: nat ensures ActiveOrder(s', g', a, b) { assert ActiveOrder(s, g, a, b); }
    forall k: nat ensures RecordAt(s', g', next, k) {
      assert RecordAt(s, g, next, k);
    }
    forall c ensures NamedAt(s', g', c) { assert NamedAt(s, g, c); }
    forall m: nat, i: nat ensures RecAt(s', g', m, i) { assert RecAt(s, g, m, i); }
    forall m: nat, a: nat, b: nat ensures RecOrder(s', g', m, a, b) {
      assert RecOrder(s, g, m, a, b) && RecAt(s, g, m, a) && RecAt(s, g, m, b);
    }
  }

  /** A free slot stays as it was. */
  lemma FreeStays(s: seq<Slot>, g: Shape, next: nat, n: nat, p: nat, j: nat, m: nat)
    requires Rep(s, g, next, n) && Empty(s, g, n, p, j) && m < |s| && s[m].FreeSlot?
    ensures Pruned(s, g, n, p, j)[m] == s[m]
  {
    PruneSlots(s, g, next, n, p, j);
    assert NodeKind(s, g, p);
    if j > 0 { assert NodeKind(s, g, KidsOf(g, p)[j - 1]); }
  }

  /** The list behind the slots put in front keeps its order. */
  lemma BehindFront(front: seq<nat>, list: seq<nat>, a: nat)
    requires |front| <= a < |front + list|
    ensures (front + list)[a] == list[a - |front|] && After(front + list, a) == After(list, a - |front|)
  {
  }

  lemma PruneFreeLink(s: seq<Slot>, g: Shape, next: nat, n: nat, p: nat, j: nat, a: nat)
    requires Rep(s, g, next, n) && Empty(s, g, n, p, j)
    ensures FreeAt(Pruned(s, g, n, p, j), PrunedShape(s, g, n, p, j), a)
  {
    var image := NodeOf(s, n).imageSlot;
    var front := if image >= 0 then [image, n] else [n];
    if a < |front| {
      PruneSlots(s, g, next, n, p, j);
    } else if a < |front + g.free| {
      BehindFront(front, g.free, a);
      assert FreeAt(s, g, a - |front|);
      FreeStays(s, g, next, n, p, j, g.free[a - |front|]);
    }
  }

  lemma PruneFreeLinks(s: seq<Slot>, g: Shape, next: nat, n: nat, p: nat, j: nat)
    requires Rep(s, g, next, n) && Empty(s, g, n, p, j)
    ensures forall a: nat :: FreeAt(Pruned(s, g, n, p, j), PrunedShape(s, g, n, p, j), a)
  {
    forall a: nat ensures FreeAt(Pruned(s, g, n, p, j), PrunedShape(s, g, n, p, j), a) {
      PruneFreeLink(s, g, next, n, p, j, a);
    }
  }

  /** Distinct slots in front of a list without repeats, none of them in it. */
  lemma FrontOnce(front: seq<nat>, list: seq<nat>, a: nat, b: nat)
    requires a < b < |front + list|
    requires |front| <= a ==> list[a - |front|] != list[b - |front|]
    requires b < |front| ==> front[a] != front[b]
    requires forall i :: 0 <= i < |front| ==> front[i] !in list
    ensures (front + list)[a] != (front + list)[b]
  {
    if a < |front| <= b { assert list[b - |front|] in list; }
  }

  lemma PruneFreeOnce(s: seq<Slot>, g: Shape, next: nat, n: nat, p: nat, j: nat)
    requires Rep(s, g, next, n) && Empty(s, g, n, p, j)
    ensures forall a: nat, b: nat :: FreeOnce(PrunedShape(s, g, n, p, j), a, b)
  {
    PruneSlots(s, g, next, n, p, j);
    var image := NodeOf(s, n).imageSlot;
    var front := if image >= 0 then [image, n] else [n];
    forall i | 0 <= i < |front| ensures front[i] !in g.free { TakenNotFree(s, g, front[i]); }
    forall a: nat, b: nat ensures FreeOnce(PrunedShape(s, g, n, p, j), a, b) {
      if a < b < |front + g.free| {
        if |front| <= a { assert FreeOnce(g, a - |front|, b - |front|); }
        FrontOnce(front, g.free, a, b);
      }
    }
  }

  lemma TakenNotFree(s: seq<Slot>, g: Shape, k: nat)
    requires FreeOk(s, g) && k < |s| && !s[k].FreeSlot?
    ensures k !in g.free
  {
    forall i: nat | i < |g.free| ensures g.free[i] != k { assert FreeAt(s, g, i); }
  }

  lemma PruneFreeCovers(s: seq<Slot>, g: Shape, next: nat, n: nat, p: nat, j: nat)
    requires Rep(s, g, next, n) && Empty(s, g, n, p, j)
    ensures forall k: nat :: FreeCovers(Pruned(s, g, n, p, j), PrunedShape(s, g, n, p, j), k)
  {
    PruneSlots(s, g, next, n, p, j);
    var s', g' := Pruned(s, g, n, p, j), PrunedShape(s, g, n, p, j);
    var added := |g'.free| - |g.free|;
    assert g'.free[added - 1] == n && (added == 2 ==> g'.free[0] == NodeOf(s, n).imageSlot);
    assert g'.free[added..] == g.free;
    forall k: nat ensures FreeCovers(s', g', k) {
      assert FreeCovers(s, g, k);
      if k in g.free { assert k in g'.free[added..]; }
    }
  }

  lemma PruneFree(s: seq<Slot>, g: Shape, next: nat, n: nat, p: nat, j: nat)
    requires Rep(s, g, next, n) && Empty(s, g, n, p, j)
    ensures FreeOk(Pruned(s, g, n, p, j), PrunedShape(s, g, n, p, j))
  {
    PruneFreeLinks(s, g, next, n, p, j);
    PruneFreeOnce(s, g, next, n, p, j);
    PruneFreeCovers(s, g, next, n, p, j);
  }

  /** An empty node leaves the trie with its image; only its parent may now be bare. */
  lemma PruneNode(s: seq<Slot>, g: Shape, next: nat, n: nat, p: nat, j: nat)
    requires Rep(s, g, next, n) && Empty(s, g, n, p, j)
    ensures Rep(Pruned(s, g, n, p, j), PrunedShape(s, g, n, p, j), next, p)
  {
    PruneTree(s, g, next, n, p, j);
    PruneImages(s, g, next, n, p, j);
    PruneLists(s, g, next, n, p, j);
    PruneFree(s, g, next, n, p, j);
  }

  /** A node that is not empty, or the root, needs no exception. */
  lemma NotBare(s: seq<Slot>, g: Shape, next: nat, n: nat)
    requires Rep(s, g, next, n) && (n == 0 || KidsOf(g, n) != [] || RecsOf(g, n) != [])
    ensures Rep(s, g, next, NoIndex)
  {
    forall m: nat ensures FilledAt(g, NoIndex, m) { assert FilledAt(g, n, m); }
  }
}
